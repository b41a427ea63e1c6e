/** The request and response bodies of the HTTP handlers in main.py. */
module Models {

  datatype Option<+T> = None | Some(value: T)

  /** Item prices are floats in the source; nothing here does arithmetic on them. */
  type Price = real

  /** Body of the customer endpoints; the id is optional because the store generates it. */
  datatype Customer = Customer(customerId: Option<int>, name: string, phone: string)

  /** Body of the item endpoints; the id is optional because the store generates it. */
  datatype Item = Item(itemId: Option<int>, name: string, price: Price)

  /** Body of the order endpoints: `items` lists item ids, in order, duplicates allowed. */
  datatype Order = Order(orderId: Option<int>, notes: string, customerId: int, items: seq<int>)

  /**
   * What a handler answers: its value, or the status of the HTTPException it raises.
   * ServerError is the 500 an uncaught IntegrityError becomes.
   */
  datatype Response<+T> = Ok(value: T) | BadRequest | NotFound | Conflict | ServerError
}
