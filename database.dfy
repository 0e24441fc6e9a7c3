/** The persistent tables the services read and write through their mappers.
    A mapper's `selectById` is a map lookup, `updateById` and `deleteById` are
    map updates, and the row counts of carousel items, cart lines, reviews and
    favorites are kept per product id. */
module Database {
  import opened Entities

  /** Rows per product id in the tables that are written by services outside
      this model; an id that is absent has no rows. */
  datatype References = References(
    carousel: map<int, nat>,
    cart: map<int, nat>,
    review: map<int, nat>,
    favorite: map<int, nat>)

  function RowCount(rows: map<int, nat>, productId: int): nat {
    if productId in rows then rows[productId] else 0
  }

  class Store {
    var orders: map<int, Order>
    var products: map<int, Product>
    var refs: References
    /** The next keys the auto-increment columns hand out. */
    var nextOrderId: int
    var nextProductId: int

    /** Every row is stored under its own id, and the counters are above
        every id in use. */
    ghost predicate Valid()
      reads this
    {
      && (forall k :: k in orders ==> orders[k].id == k && k < nextOrderId)
      && (forall k :: k in products ==> products[k].id == k && k < nextProductId)
    }

    constructor (refs: References)
      ensures Valid()
      ensures orders == map[] && products == map[] && this.refs == refs
    {
      orders := map[];
      products := map[];
      this.refs := refs;
      nextOrderId := 1;
      nextProductId := 1;
    }
  }
}
