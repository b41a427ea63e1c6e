/** The rows of the four tables and the constraints the schema declares on them. */
module Schema {
  import opened Models

  datatype CustomerRow = CustomerRow(name: string, phone: string)
  datatype ItemRow = ItemRow(name: string, price: Price)
  datatype OrderRow = OrderRow(notes: string, customerId: int, timestamp: int)

  /** A row of ORDER_LIST: one (order, item) association. */
  datatype Line = Line(lineId: int, orderId: int, itemId: int)

  /** CUSTOMERS.phone is UNIQUE. */
  ghost predicate PhonesUnique(cs: map<int, CustomerRow>)
  {
    forall a, b :: a in cs && b in cs && a != b ==> cs[a].phone != cs[b].phone
  }

  /** ITEMS.name is UNIQUE. */
  ghost predicate NamesUnique(its: map<int, ItemRow>)
  {
    forall a, b :: a in its && b in its && a != b ==> its[a].name != its[b].name
  }

  /** Some customer other than `except` already has this phone. */
  predicate PhoneUsed(cs: map<int, CustomerRow>, phone: string, except: Option<int>)
  {
    exists k :: k in cs && Some(k) != except && cs[k].phone == phone
  }

  /** Some item other than `except` already has this name. */
  predicate NameUsed(its: map<int, ItemRow>, name: string, except: Option<int>)
  {
    exists k :: k in its && Some(k) != except && its[k].name == name
  }
}
