/**
 * The HTTP handlers of main.py as operations on one database. Every writer works on
 * local copies of the tables and assigns them to the fields only where the handler
 * commits; returning without assigning is a rollback (or a close without commit).
 */
module Api {
  import opened Models
  import opened Schema
  import opened RowIds
  import opened OrderLines

  /** What GET /orders/{id} answers; `items` holds the referenced ITEMS rows by item_id. */
  datatype OrderView = OrderView(orderId: int, notes: string, timestamp: int, customerId: int,
                                 items: map<int, ItemRow>)

  /**
   * CPython's `a is not b` on an int path parameter and the body's optional id: ints
   * from -5 to 256 are shared objects, larger ones parsed separately are distinct.
   */
  predicate IsNot(a: int, b: Option<int>)
  {
    b.None? || a != b.value || a < -5 || 256 < a
  }

  /** With the identity test, PUT /orders/257 is refused even when the body says order 257. */
  lemma IdentityTestRejectsMatchingId()
    ensures IsNot(257, Some(257))
    ensures !IsNot(256, Some(256))
  {
  }

  class Store {
    var customers: map<int, CustomerRow>
    var items: map<int, ItemRow>
    var orders: map<int, OrderRow>
    var lines: seq<Line>

    /** The schema's UNIQUE columns, ORDER_LIST in rowid order, and no line without its order. */
    ghost predicate Valid()
      reads this
    {
      && PhonesUnique(customers)
      && NamesUnique(items)
      && IncreasingIds(lines)
      && (forall l :: l in lines ==> l.orderId in orders)
    }

    /** The four tables just after they are created, empty. */
    constructor ()
      ensures Valid()
      ensures customers == map[] && items == map[] && orders == map[] && lines == []
    {
      customers, items, orders, lines := map[], map[], map[], [];
    }

    // ---------------------------------------------------------------- customers

    /** GET /customers/{id} */
    function ReadCustomer(customerId: int): (r: Response<Customer>)
      reads this
      ensures r.Ok? <==> customerId in customers
      ensures !r.Ok? ==> r.NotFound?
      ensures r.Ok? ==>
        && r.value.customerId == Some(customerId)
        && customers[customerId] == CustomerRow(r.value.name, r.value.phone)
    {
      if customerId in customers
      then Ok(Customer(Some(customerId), customers[customerId].name, customers[customerId].phone))
      else NotFound
    }

    /** POST /customers/ */
    method CreateCustomer(customer: Customer) returns (r: Response<Customer>)
      requires Valid()
      modifies this
      ensures Valid()
      ensures items == old(items) && orders == old(orders) && lines == old(lines)
      ensures r.BadRequest? <==> customer.customerId.Some?
      ensures r.Conflict? <==> customer.customerId.None? && PhoneUsed(old(customers), customer.phone, None)
      ensures r.Ok? || r.BadRequest? || r.Conflict?
      ensures !r.Ok? ==> customers == old(customers)
      ensures r.Ok? ==>
        var id := NextRowId(old(customers).Keys);
        && id !in old(customers)
        && r.value == customer.(customerId := Some(id))
        && customers == old(customers)[id := CustomerRow(customer.name, customer.phone)]
        && ReadCustomer(id) == r
    {
      if customer.customerId.Some? {
        return BadRequest;
      }
      if PhoneUsed(customers, customer.phone, None) {
        return Conflict;
      }
      var id := NextRowId(customers.Keys);
      customers := customers[id := CustomerRow(customer.name, customer.phone)];
      r := Ok(customer.(customerId := Some(id)));
    }

    /** PUT /customers/{id}; a phone held by another customer is an uncaught IntegrityError. */
    method UpdateCustomer(customerId: int, customer: Customer) returns (r: Response<Customer>)
      requires Valid()
      modifies this
      ensures Valid()
      ensures items == old(items) && orders == old(orders) && lines == old(lines)
      ensures r.BadRequest? <==> customer.customerId != Some(customerId)
      ensures r.NotFound? <==> customer.customerId == Some(customerId) && customerId !in old(customers)
      ensures r.ServerError? <==> (customer.customerId == Some(customerId) && customerId in old(customers)
                                  && PhoneUsed(old(customers), customer.phone, Some(customerId)))
      ensures !r.Conflict?
      ensures !r.Ok? ==> customers == old(customers)
      ensures r.Ok? ==>
        && r.value == customer
        && customers == old(customers)[customerId := CustomerRow(customer.name, customer.phone)]
        && ReadCustomer(customerId) == Ok(customer)
    {
      if customer.customerId != Some(customerId) {
        return BadRequest;
      }
      if customerId !in customers {
        return NotFound;
      }
      if PhoneUsed(customers, customer.phone, Some(customerId)) {
        return ServerError;
      }
      customers := customers[customerId := CustomerRow(customer.name, customer.phone)];
      r := Ok(customer);
    }

    /** DELETE /customers/{id}; foreign keys are off, so the customer's orders stay. */
    method DeleteCustomer(customerId: int) returns (r: Response<nat>)
      requires Valid()
      modifies this
      ensures Valid()
      ensures items == old(items) && orders == old(orders) && lines == old(lines)
      ensures r.Ok? <==> customerId in old(customers)
      ensures !r.Ok? ==> r.NotFound? && customers == old(customers)
      ensures r.Ok? ==> r.value == 1 && customers == old(customers) - {customerId}
      ensures ReadCustomer(customerId) == NotFound
    {
      if customerId !in customers {
        return NotFound;
      }
      customers := customers - {customerId};
      r := Ok(1);
    }

    // ---------------------------------------------------------------- items

    /** GET /items/{id} */
    function GetItem(itemId: int): (r: Response<Item>)
      reads this
      ensures r.Ok? <==> itemId in items
      ensures !r.Ok? ==> r.NotFound?
      ensures r.Ok? ==>
        && r.value.itemId == Some(itemId)
        && items[itemId] == ItemRow(r.value.name, r.value.price)
    {
      if itemId in items
      then Ok(Item(Some(itemId), items[itemId].name, items[itemId].price))
      else NotFound
    }

    /** POST /items/; an id in the body is ignored. */
    method CreateItem(item: Item) returns (r: Response<Item>)
      requires Valid()
      modifies this
      ensures Valid()
      ensures customers == old(customers) && orders == old(orders) && lines == old(lines)
      ensures r.Conflict? <==> NameUsed(old(items), item.name, None)
      ensures r.Ok? || r.Conflict?
      ensures !r.Ok? ==> items == old(items)
      ensures r.Ok? ==>
        var id := NextRowId(old(items).Keys);
        && id !in old(items)
        && r.value == item.(itemId := Some(id))
        && items == old(items)[id := ItemRow(item.name, item.price)]
        && GetItem(id) == r
    {
      if NameUsed(items, item.name, None) {
        return Conflict;
      }
      var id := NextRowId(items.Keys);
      items := items[id := ItemRow(item.name, item.price)];
      r := Ok(item.(itemId := Some(id)));
    }

    /** DELETE /items/{id}; foreign keys are off, so lines naming the item stay. */
    method DeleteItem(itemId: int) returns (r: Response<nat>)
      requires Valid()
      modifies this
      ensures Valid()
      ensures customers == old(customers) && orders == old(orders) && lines == old(lines)
      ensures r.Ok? <==> itemId in old(items)
      ensures !r.Ok? ==> r.NotFound? && items == old(items)
      ensures r.Ok? ==> r.value == 1 && items == old(items) - {itemId}
      ensures GetItem(itemId) == NotFound
    {
      if itemId !in items {
        return NotFound;
      }
      items := items - {itemId};
      r := Ok(1);
    }

    /** PUT /items/{id}; a name held by another item is an uncaught IntegrityError. */
    method UpdateItem(itemId: int, item: Item) returns (r: Response<Item>)
      requires Valid()
      modifies this
      ensures Valid()
      ensures customers == old(customers) && orders == old(orders) && lines == old(lines)
      ensures r.BadRequest? <==> item.itemId != Some(itemId)
      ensures r.NotFound? <==> item.itemId == Some(itemId) && itemId !in old(items)
      ensures r.ServerError? <==> (item.itemId == Some(itemId) && itemId in old(items)
                                  && NameUsed(old(items), item.name, Some(itemId)))
      ensures !r.Conflict?
      ensures !r.Ok? ==> items == old(items)
      ensures r.Ok? ==>
        && r.value == item
        && items == old(items)[itemId := ItemRow(item.name, item.price)]
        && GetItem(itemId) == Ok(item)
    {
      if item.itemId != Some(itemId) {
        return BadRequest;
      }
      if itemId !in items {
        return NotFound;
      }
      if NameUsed(items, item.name, Some(itemId)) {
        return ServerError;
      }
      items := items[itemId := ItemRow(item.name, item.price)];
      r := Ok(item);
    }

    // ---------------------------------------------------------------- orders

    /**
     * The loop of guarded inserts `INSERT INTO ORDER_LIST ... WHERE EXISTS (item)`:
     * one new row per entry of `itemIds`, in order, or None at the first missing item.
     */
    method InsertLines(base: seq<Line>, orderId: int, itemIds: seq<int>) returns (res: Option<seq<Line>>)
      requires IncreasingIds(base)
      ensures res.None? <==> exists j :: 0 <= j < |itemIds| && itemIds[j] !in items
      ensures res.Some? ==> res.value == base + LinesFor(NextRowId(LineIds(base)), orderId, itemIds, |itemIds|)
      ensures res.Some? ==> IncreasingIds(res.value)
    {
      var first := NextRowId(LineIds(base));
      var acc := base;
      for i := 0 to |itemIds|
        invariant acc == base + LinesFor(first, orderId, itemIds, i)
        invariant forall j :: 0 <= j < i ==> itemIds[j] in items
      {
        var itemId := itemIds[i];
        if itemId !in items {
          return None;
        }
        acc := acc + [Line(first + i, orderId, itemId)];
      }
      LinesForOrdered(base, first, orderId, itemIds, |itemIds|);
      res := Some(acc);
    }

    /** GET /orders/{id}: each referenced item once; lines naming a deleted item drop out. */
    function GetOrder(orderId: int): (r: Response<OrderView>)
      reads this
      ensures r.Ok? <==> orderId in orders
      ensures !r.Ok? ==> r.NotFound?
      ensures r.Ok? ==>
        && r.value.orderId == orderId
        && r.value.notes == orders[orderId].notes
        && r.value.timestamp == orders[orderId].timestamp
        && r.value.customerId == orders[orderId].customerId
      ensures r.Ok? ==> forall k :: k in r.value.items <==>
                          k in items && exists l :: l in lines && l.orderId == orderId && l.itemId == k
      ensures r.Ok? ==> forall k :: k in r.value.items ==> r.value.items[k] == items[k]
    {
      if orderId in orders
      then
        var o := orders[orderId];
        Ok(OrderView(orderId, o.notes, o.timestamp, o.customerId, ReferencedItems(items, lines, orderId)))
      else NotFound
    }

    /** POST /orders/: all or nothing, with the clock reading `now` as timestamp. */
    method CreateOrder(order: Order, now: int) returns (r: Response<int>)
      requires Valid()
      modifies this
      ensures Valid()
      ensures customers == old(customers) && items == old(items)
      ensures r.Ok? || r.NotFound?
      ensures r.NotFound? <==> (order.customerId !in old(customers)
                            || exists j :: 0 <= j < |order.items| && order.items[j] !in old(items))
      ensures r.NotFound? ==> orders == old(orders) && lines == old(lines)
      ensures r.Ok? ==>
        var id := NextRowId(old(orders).Keys);
        && r.value == id
        && id !in old(orders)
        && orders == old(orders)[id := OrderRow(order.notes, order.customerId, now)]
        && lines == old(lines) + LinesFor(NextRowId(LineIds(old(lines))), id, order.items, |order.items|)
        && ItemsOf(lines, id) == order.items
        && (forall o :: o != id ==> ItemsOf(lines, o) == ItemsOf(old(lines), o))
        && GetOrder(id) == Ok(OrderView(id, order.notes, now, order.customerId,
                                        map k | k in order.items :: old(items)[k]))
    {
      if order.customerId !in customers {
        return NotFound;  // the connection closes without a commit
      }
      var orderId := NextRowId(orders.Keys);
      var newOrders := orders[orderId := OrderRow(order.notes, order.customerId, now)];
      var appended := InsertLines(lines, orderId, order.items);
      if appended.None? {
        return NotFound;  // rollback: neither the order row nor any line is kept
      }
      var newLines := appended.value;
      ItemsOfLinesFor(lines, NextRowId(LineIds(lines)), orderId, order.items, |order.items|);
      assert order.items[..|order.items|] == order.items;
      ItemsOfAbsent(lines, orderId);
      LinesForOwned(lines, newOrders.Keys, NextRowId(LineIds(lines)), orderId, order.items, |order.items|);
      orders, lines := newOrders, newLines;
      ReferencedItemsOf(items, lines, orderId, order.items);
      r := Ok(orderId);
    }

    /** DELETE /orders/{id}, with foreign keys on: the order's lines go with it. */
    method DeleteOrder(orderId: int) returns (r: Response<nat>)
      requires Valid()
      modifies this
      ensures Valid()
      ensures customers == old(customers) && items == old(items)
      ensures r.Ok? <==> orderId in old(orders)
      ensures !r.Ok? ==> r.NotFound? && orders == old(orders) && lines == old(lines)
      ensures r.Ok? ==>
        && r.value == 1
        && orders == old(orders) - {orderId}
        && lines == LinesWithout(old(lines), orderId)
      ensures forall l :: l in lines ==> l.orderId != orderId
      ensures forall o :: o != orderId ==> ItemsOf(lines, o) == ItemsOf(old(lines), o)
      ensures GetOrder(orderId) == NotFound
    {
      if orderId !in orders {
        return NotFound;
      }
      LinesWithoutOrdered(lines, orderId);
      ItemsOfLinesWithout(lines, orderId);
      orders, lines := orders - {orderId}, LinesWithout(lines, orderId);
      r := Ok(1);
    }

    /**
     * PUT /orders/{id}. The new notes and timestamp are committed before the lines are
     * replaced, so a missing item undoes only the line changes.
     */
    method UpdateOrder(orderId: int, order: Order, now: int) returns (r: Response<int>)
      requires Valid()
      modifies this
      ensures Valid()
      ensures customers == old(customers) && items == old(items)
      ensures r.Ok? || r.BadRequest? || r.NotFound?
      ensures r.BadRequest? <==> order.orderId != Some(orderId)
      ensures r.NotFound? <==> (order.orderId == Some(orderId)
                            && (orderId !in old(orders)
                                || exists j :: 0 <= j < |order.items| && order.items[j] !in old(items)))
      ensures r.BadRequest? || orderId !in old(orders) ==> orders == old(orders)
      ensures !r.Ok? ==> lines == old(lines)
      ensures !r.BadRequest? && orderId in old(orders) ==>
        orders == old(orders)[orderId := OrderRow(order.notes, old(orders)[orderId].customerId, now)]
      ensures r.Ok? ==>
        var kept := LinesWithout(old(lines), orderId);
        && r.value == orderId
        && lines == kept + LinesFor(NextRowId(LineIds(kept)), orderId, order.items, |order.items|)
        && ItemsOf(lines, orderId) == order.items
        && (forall o :: o != orderId ==> ItemsOf(lines, o) == ItemsOf(old(lines), o))
        && GetOrder(orderId) == Ok(OrderView(orderId, order.notes, now, old(orders)[orderId].customerId,
                                             map k | k in order.items :: old(items)[k]))
    {
      if order.orderId != Some(orderId) {
        return BadRequest;
      }
      if orderId !in orders {
        return NotFound;
      }
      // committed at once: a later missing item does not undo this
      orders := orders[orderId := OrderRow(order.notes, orders[orderId].customerId, now)];
      var kept := LinesWithout(lines, orderId);
      LinesWithoutOrdered(lines, orderId);
      ItemsOfLinesWithout(lines, orderId);
      var appended := InsertLines(kept, orderId, order.items);
      if appended.None? {
        return NotFound;  // rollback of the line delete and of the inserts so far
      }
      ItemsOfLinesFor(kept, NextRowId(LineIds(kept)), orderId, order.items, |order.items|);
      assert order.items[..|order.items|] == order.items;
      LinesForOwned(kept, orders.Keys, NextRowId(LineIds(kept)), orderId, order.items, |order.items|);
      lines := appended.value;
      ReferencedItemsOf(items, lines, orderId, order.items);
      r := Ok(orderId);
    }
  }
}
