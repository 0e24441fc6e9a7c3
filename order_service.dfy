/** The order lifecycle: creation with a stock check, status changes, refund
    requests, payment, address changes, full updates, deletes, and the order
    query with its farmer filter.

    Each operation loads a row, changes it and writes it back. A flag such as
    `writeOk` is the outcome of a write the service cannot predict (false when
    the mapper reports that no row was affected); a delete affects a row
    exactly when the key is present. */
module OrderService {
  import opened Entities
  import opened Database

  /** The body of an update request. The mapper writes only the fields that
      are present (a Java null is `None`). */
  datatype OrderPatch = OrderPatch(
    id: Option<int>,
    userId: Option<int>,
    productId: Option<int>,
    quantity: Option<int>,
    price: Option<int>,
    totalPrice: Option<int>,
    status: Option<int>,
    lastStatus: Option<int>,
    refundStatus: Option<int>,
    refundReason: Option<string>,
    recvAddress: Option<string>,
    recvPhone: Option<string>,
    createdAt: Option<int>)

  /** A patch in which every field of `o` is present. */
  function FullPatch(o: Order): OrderPatch {
    OrderPatch(Some(o.id), Some(o.userId), Some(o.productId), Some(o.quantity), Some(o.price),
      Some(o.totalPrice), Some(o.status), Some(o.lastStatus), Some(o.refundStatus),
      Some(o.refundReason), Some(o.recvAddress), Some(o.recvPhone), Some(o.createdAt))
  }

  /** The row updateOrder writes over `existing`: whatever the patch says,
      the id, creation time, buyer, product and total stay those of
      `existing`, and every other field is the patch's where present. */
  function MergeOrder(existing: Order, patch: OrderPatch): (r: Order)
    ensures CreationFieldsKept(existing, r)
    ensures patch.quantity.None? ==> r.quantity == existing.quantity
    ensures patch.quantity.Some? ==> r.quantity == patch.quantity.value
    ensures patch.price.None? ==> r.price == existing.price
    ensures patch.price.Some? ==> r.price == patch.price.value
    ensures patch.status.None? ==> r.status == existing.status
    ensures patch.status.Some? ==> r.status == patch.status.value
    ensures patch.lastStatus.None? ==> r.lastStatus == existing.lastStatus
    ensures patch.lastStatus.Some? ==> r.lastStatus == patch.lastStatus.value
    ensures patch.refundStatus.None? ==> r.refundStatus == existing.refundStatus
    ensures patch.refundStatus.Some? ==> r.refundStatus == patch.refundStatus.value
    ensures patch.refundReason.None? ==> r.refundReason == existing.refundReason
    ensures patch.refundReason.Some? ==> r.refundReason == patch.refundReason.value
    ensures patch.recvAddress.None? ==> r.recvAddress == existing.recvAddress
    ensures patch.recvAddress.Some? ==> r.recvAddress == patch.recvAddress.value
    ensures patch.recvPhone.None? ==> r.recvPhone == existing.recvPhone
    ensures patch.recvPhone.Some? ==> r.recvPhone == patch.recvPhone.value
  {
    existing.(
      quantity := Pick(patch.quantity, existing.quantity),
      price := Pick(patch.price, existing.price),
      status := Pick(patch.status, existing.status),
      lastStatus := Pick(patch.lastStatus, existing.lastStatus),
      refundStatus := Pick(patch.refundStatus, existing.refundStatus),
      refundReason := Pick(patch.refundReason, existing.refundReason),
      recvAddress := Pick(patch.recvAddress, existing.recvAddress),
      recvPhone := Pick(patch.recvPhone, existing.recvPhone))
  }

  /** Writing a row back in full after changing only fields that are not
      fixed at creation stores exactly the changed row. */
  lemma MergeFullPatch(existing: Order, changed: Order)
    requires CreationFieldsKept(existing, changed)
    ensures MergeOrder(existing, FullPatch(changed)) == changed
  {
  }

  predicate CanOrder(products: map<int, Product>, order: Order) {
    order.productId in products && products[order.productId].stock >= order.quantity
  }

  /** createOrder: refuses an unknown product or too little stock; otherwise
      inserts the order with total price × quantity under a fresh id and then
      lowers the product's stock by the quantity. The stock write's outcome is
      not checked, and no stock changes when the insert fails. */
  method CreateOrder(db: Store, order: Order, insertOk: bool, stockWriteOk: bool) returns (r: Result<Order>)
    requires db.Valid()
    modifies db`orders, db`products, db`nextOrderId
    ensures db.Valid()
    ensures order.productId !in old(db.products) ==> r == Err(ProductNotFound)
    ensures order.productId in old(db.products) && old(db.products)[order.productId].stock < order.quantity ==>
      r == Err(InsufficientStock)
    ensures CanOrder(old(db.products), order) && !insertOk ==> r == Err(WriteFailed)
    ensures r.Ok? <==> CanOrder(old(db.products), order) && insertOk
    ensures r.Err? ==> db.orders == old(db.orders) && db.products == old(db.products)
    ensures r.Ok? ==>
      var p := old(db.products)[order.productId];
      && r.value == order.(id := old(db.nextOrderId), totalPrice := order.price * order.quantity)
      && r.value.id !in old(db.orders)
      && db.orders == old(db.orders)[r.value.id := r.value]
      && db.products == if stockWriteOk then old(db.products)[p.id := p.(stock := p.stock - order.quantity)]
                        else old(db.products)
    ensures StockNonNegative(old(db.products)) ==> StockNonNegative(db.products)
  {
    if order.productId !in db.products {
      return Err(ProductNotFound);
    }
    var product := db.products[order.productId];
    if product.stock < order.quantity {
      return Err(InsufficientStock);
    }
    var created := order.(totalPrice := order.price * order.quantity);
    if !insertOk {
      return Err(WriteFailed);
    }
    created := created.(id := db.nextOrderId);
    db.orders := db.orders[created.id := created];
    db.nextOrderId := db.nextOrderId + 1;
    if stockWriteOk {
      db.products := db.products[product.id := product.(stock := product.stock - order.quantity)];
    }
    r := Ok(created);
  }

  /** updateOrderStatus: any integer becomes the status, and the status it
      replaces is kept as lastStatus. */
  method UpdateOrderStatus(db: Store, id: int, status: int, writeOk: bool) returns (r: Result<Order>)
    requires db.Valid()
    modifies db`orders
    ensures db.Valid()
    ensures id !in old(db.orders) ==> r == Err(OrderNotFound) && db.orders == old(db.orders)
    ensures id in old(db.orders) ==>
      var updated := old(db.orders)[id].(lastStatus := old(db.orders)[id].status, status := status);
      if writeOk then r == Ok(updated) && db.orders == old(db.orders)[id := updated]
      else r == Err(WriteFailed) && db.orders == old(db.orders)
    ensures r.Ok? ==> r.value.status == status && r.value.lastStatus == old(db.orders)[id].status
    ensures OrdersKeepCreationFields(old(db.orders), db.orders)
  {
    if id !in db.orders {
      return Err(OrderNotFound);
    }
    var order := db.orders[id];
    order := order.(lastStatus := order.status);
    order := order.(status := status);
    if !writeOk {
      return Err(WriteFailed);
    }
    db.orders := db.orders[id := order];
    r := Ok(order);
  }

  /** refundOrder: only a paid (1) or shipped (2) order may ask for a refund;
      the request sets refundStatus to 1 and stores the reason, and nothing
      else about the order changes. */
  method RefundOrder(db: Store, id: int, reason: string, writeOk: bool) returns (r: Result<Order>)
    requires db.Valid()
    modifies db`orders
    ensures db.Valid()
    ensures id !in old(db.orders) ==> r == Err(OrderNotFound) && db.orders == old(db.orders)
    ensures id in old(db.orders) && old(db.orders)[id].status != 1 && old(db.orders)[id].status != 2 ==>
      r == Err(NotRefundable) && db.orders == old(db.orders)
    ensures id in old(db.orders) && (old(db.orders)[id].status == 1 || old(db.orders)[id].status == 2) && !writeOk ==>
      r == Err(WriteFailed)
    ensures r.Ok? <==>
      id in old(db.orders) && (old(db.orders)[id].status == 1 || old(db.orders)[id].status == 2) && writeOk
    ensures r.Ok? ==>
      && r.value == old(db.orders)[id].(refundStatus := 1, refundReason := reason)
      && db.orders == old(db.orders)[id := r.value]
    ensures r.Err? ==> db.orders == old(db.orders)
  {
    if id !in db.orders {
      return Err(OrderNotFound);
    }
    var order := db.orders[id];
    if order.status != 1 && order.status != 2 {
      return Err(NotRefundable);
    }
    order := order.(refundStatus := 1);
    order := order.(refundReason := reason);
    if !writeOk {
      return Err(WriteFailed);
    }
    db.orders := db.orders[id := order];
    r := Ok(order);
  }

  /** updateOrder: refuses an unknown id; otherwise writes the patch over the
      stored row with the fields fixed at creation forced back. */
  method UpdateOrder(db: Store, id: int, patch: OrderPatch, writeOk: bool) returns (r: Outcome)
    requires db.Valid()
    modifies db`orders
    ensures db.Valid()
    ensures id !in old(db.orders) ==> r == Fail(OrderNotFound) && db.orders == old(db.orders)
    ensures id in old(db.orders) ==>
      if writeOk then r == Pass && db.orders == old(db.orders)[id := MergeOrder(old(db.orders)[id], patch)]
      else r == Fail(WriteFailed) && db.orders == old(db.orders)
    ensures OrdersKeepCreationFields(old(db.orders), db.orders)
  {
    if id !in db.orders {
      return Fail(OrderNotFound);
    }
    var existing := db.orders[id];
    var merged := MergeOrder(existing, patch);
    if !writeOk {
      return Fail(WriteFailed);
    }
    db.orders := db.orders[id := merged];
    r := Pass;
  }

  /** payOrder: an order whose product is gone is reported paid without any
      change; otherwise too little stock is refused, and a sale moves the
      quantity from stock into salesCount, then marks the order paid (1) by a
      full update whose own outcome is ignored. The order's current status is
      not checked. */
  method PayOrder(db: Store, id: int, productWriteOk: bool, orderWriteOk: bool) returns (r: Outcome)
    requires db.Valid()
    modifies db`orders, db`products
    ensures db.Valid()
    ensures id !in old(db.orders) ==>
      r == Fail(OrderNotFound) && db.orders == old(db.orders) && db.products == old(db.products)
    ensures id in old(db.orders) && old(db.orders)[id].productId !in old(db.products) ==>
      r == Pass && db.orders == old(db.orders) && db.products == old(db.products)
    ensures id in old(db.orders) && old(db.orders)[id].productId in old(db.products) ==>
      var o := old(db.orders)[id];
      var p := old(db.products)[o.productId];
      if p.stock < o.quantity then
        r == Fail(InsufficientStock) && db.orders == old(db.orders) && db.products == old(db.products)
      else if !productWriteOk then
        r == Fail(PaymentFailed) && db.orders == old(db.orders) && db.products == old(db.products)
      else
        && r == Pass
        && db.products == old(db.products)[o.productId := Sold(p, o.quantity)]
        && db.orders == if orderWriteOk then old(db.orders)[id := o.(status := 1)] else old(db.orders)
    ensures StockNonNegative(old(db.products)) ==> StockNonNegative(db.products)
    ensures StockAndSalesConserved(old(db.products), db.products)
    ensures OrdersKeepCreationFields(old(db.orders), db.orders)
  {
    if id !in db.orders {
      return Fail(OrderNotFound);
    }
    var order := db.orders[id];
    if order.productId in db.products {
      var product := db.products[order.productId];
      if product.stock < order.quantity {
        return Fail(InsufficientStock);
      }
      product := Sold(product, order.quantity);
      order := order.(status := 1);
      if !productWriteOk {
        return Fail(PaymentFailed);
      }
      db.products := db.products[product.id := product];
      MergeFullPatch(old(db.orders)[id], order);
      var ignored := UpdateOrder(db, order.id, FullPatch(order), orderWriteOk);
    }
    r := Pass;
  }

  /** updateOrderAddress: once an order is past paid (status above 1) its
      address is frozen; before that only the address and phone change. */
  method UpdateOrderAddress(db: Store, id: int, address: string, phone: string, writeOk: bool)
    returns (r: Result<Order>)
    requires db.Valid()
    modifies db`orders
    ensures db.Valid()
    ensures id !in old(db.orders) ==> r == Err(OrderNotFound) && db.orders == old(db.orders)
    ensures id in old(db.orders) && old(db.orders)[id].status > 1 ==>
      r == Err(AlreadyShipped) && db.orders == old(db.orders)
    ensures id in old(db.orders) && old(db.orders)[id].status <= 1 && !writeOk ==> r == Err(WriteFailed)
    ensures r.Ok? <==> id in old(db.orders) && old(db.orders)[id].status <= 1 && writeOk
    ensures r.Ok? ==>
      && r.value == old(db.orders)[id].(recvAddress := address, recvPhone := phone)
      && db.orders == old(db.orders)[id := r.value]
    ensures r.Err? ==> db.orders == old(db.orders)
  {
    if id !in db.orders {
      return Err(OrderNotFound);
    }
    var order := db.orders[id];
    if order.status > 1 {
      return Err(AlreadyShipped);
    }
    order := order.(recvAddress := address);
    order := order.(recvPhone := phone);
    if !writeOk {
      return Err(WriteFailed);
    }
    db.orders := db.orders[id := order];
    r := Ok(order);
  }

  /** deleteOrder: removes the order unconditionally; it fails only when no
      such order exists. */
  method DeleteOrder(db: Store, id: int) returns (r: Outcome)
    requires db.Valid()
    modifies db`orders
    ensures db.Valid()
    ensures r == (if id in old(db.orders) then Pass else Fail(WriteFailed))
    ensures db.orders == old(db.orders) - {id}
  {
    if id in db.orders {
      db.orders := db.orders - {id};
      r := Pass;
    } else {
      r := Fail(WriteFailed);
    }
  }

  /** deleteBatch: removes every listed order without any check; it fails
      only when none of them existed. */
  method DeleteBatch(db: Store, ids: seq<int>) returns (r: Outcome)
    requires db.Valid()
    modifies db`orders
    ensures db.Valid()
    ensures r == (if exists i :: 0 <= i < |ids| && ids[i] in old(db.orders) then Pass else Fail(WriteFailed))
    ensures db.orders == old(db.orders) - (set x | x in ids)
  {
    var deleted := exists i :: 0 <= i < |ids| && ids[i] in db.orders;
    db.orders := db.orders - (set x | x in ids);
    r := if deleted then Pass else Fail(WriteFailed);
  }

  /** The filters of the order query; `None` is a filter that was not given. */
  datatype OrderQuery = OrderQuery(userId: Option<int>, id: Option<int>, status: Option<int>, farmerId: Option<int>)

  /** A row of the result, with its product and the product's farmer filled
      in, both absent when the product no longer exists. */
  datatype OrderView = OrderView(order: Order, product: Option<Product>, farmerId: Option<int>)

  datatype OrderPage = OrderPage(total: nat, records: map<int, OrderView>)

  function FarmerProductIds(products: map<int, Product>, farmerId: int): set<int> {
    set k | k in products && products[k].farmerId == farmerId
  }

  predicate MatchesFilters(q: OrderQuery, o: Order) {
    && (q.userId.Some? ==> o.userId == q.userId.value)
    && (q.id.Some? ==> o.id == q.id.value)
    && (q.status.Some? ==> o.status == q.status.value)
  }

  function View(products: map<int, Product>, o: Order): OrderView {
    if o.productId in products then
      OrderView(o, Some(products[o.productId]), Some(products[o.productId].farmerId))
    else
      OrderView(o, None, None)
  }

  /** getOrdersByPage without its paging: a farmer filter first collects the
      farmer's products and answers an empty page at once when there are none;
      otherwise it keeps the orders whose product is one of them. */
  function OrdersByPage(orders: map<int, Order>, products: map<int, Product>, q: OrderQuery): (page: OrderPage)
    requires forall k :: k in products ==> products[k].id == k
    ensures q.farmerId.Some? && FarmerProductIds(products, q.farmerId.value) == {} ==>
      page.total == 0 && page.records == map[]
    ensures forall k :: k in page.records <==>
      && k in orders
      && MatchesFilters(q, orders[k])
      && (q.farmerId.Some? ==>
            orders[k].productId in products && products[orders[k].productId].farmerId == q.farmerId.value)
    ensures forall k :: k in page.records ==>
      && page.records[k].order == orders[k]
      && page.records[k].product
           == (if orders[k].productId in products then Some(products[orders[k].productId]) else None)
      && page.records[k].farmerId
           == (if orders[k].productId in products then Some(products[orders[k].productId].farmerId) else None)
    ensures page.total == |page.records|
  {
    if q.farmerId.Some? && FarmerProductIds(products, q.farmerId.value) == {} then
      var f := q.farmerId.value;
      assert forall k :: k in orders && orders[k].productId in products ==> products[orders[k].productId].farmerId != f by {
        forall k | k in orders && orders[k].productId in products
          ensures products[orders[k].productId].farmerId != f
        {
          assert orders[k].productId !in FarmerProductIds(products, f);
        }
      }
      OrderPage(0, map[])
    else
      var owned := if q.farmerId.Some? then FarmerProductIds(products, q.farmerId.value) else {};
      var records := map k | k in orders && MatchesFilters(q, orders[k])
                                && (q.farmerId.Some? ==> orders[k].productId in owned)
                           :: View(products, orders[k]);
      OrderPage(|records|, records)
  }
}
