/** Payment through Alipay: the payment request built for an order, and the
    gateway's asynchronous notification that settles it. The gateway client
    and the RSA2 signature check are outside the model; the check's verdict is
    the parameter `signatureValid`. */
module AlipayService {
  import opened Entities
  import opened Database
  import opened TradeNo

  const TradeSuccess: string := "TRADE_SUCCESS"
  const ProductCode: string := "FAST_INSTANT_TRADE_PAY"

  /** The business content of the page-pay request. */
  datatype PaymentRequest = PaymentRequest(outTradeNo: string, totalAmount: int, subject: string, productCode: string)

  /** pay: refuses, before the gateway is contacted, a missing order, a
      missing product and too little stock; otherwise asks for quantity ×
      the product's current price (not the price or total stored on the
      order), names the product, and numbers the trade with the order id. */
  function PaymentRequestFor(orders: map<int, Order>, products: map<int, Product>, orderId: int): (r: Result<PaymentRequest>)
    ensures orderId !in orders ==> r == Err(OrderNotFound)
    ensures orderId in orders && orders[orderId].productId !in products ==> r == Err(ProductNotFound)
    ensures orderId in orders && orders[orderId].productId in products
            && products[orders[orderId].productId].stock < orders[orderId].quantity ==>
      r == Err(InsufficientStock)
    ensures r.Ok? <==>
      orderId in orders && orders[orderId].productId in products
      && products[orders[orderId].productId].stock >= orders[orderId].quantity
    ensures r.Ok? ==>
      var o := orders[orderId];
      var p := products[o.productId];
      && p.stock >= o.quantity
      && r.value.totalAmount == o.quantity * p.price
      && r.value.subject == p.name
      && r.value.productCode == ProductCode
      && (InLongRange(o.id) ==> ParseLong(r.value.outTradeNo) == Some(o.id))
  {
    if orderId !in orders then Err(OrderNotFound)
    else
      var o := orders[orderId];
      if o.productId !in products then Err(ProductNotFound)
      else
        var p := products[o.productId];
        if p.stock < o.quantity then Err(InsufficientStock)
        else
          var request := PaymentRequest(FormatLong(o.id), o.quantity * p.price, p.name, ProductCode);
          if InLongRange(o.id) then
            ParseFormat(o.id);
            Ok(request)
          else
            Ok(request)
  }

  /** The values of one request parameter, as a servlet gives them: never
      an empty array. */
  datatype ParamValues = ParamValues(first: string, rest: seq<string>)

  type ParameterMap = map<string, ParamValues>

  /** `getParameter`: the first value of the parameter, if it was sent. */
  function GetParameter(request: ParameterMap, name: string): Option<string> {
    if name in request then Some(request[name].first) else None
  }

  /** The flat name-to-value map the notification handler builds: one entry
      per parameter name, holding its first value. */
  method CollectParams(request: ParameterMap) returns (params: map<string, string>)
    ensures params.Keys == request.Keys
    ensures forall name :: name in params ==> GetParameter(request, name) == Some(params[name])
  {
    params := map[];
    var names := request.Keys;
    while names != {}
      invariant names <= request.Keys
      invariant params.Keys == request.Keys - names
      invariant forall name :: name in params ==> params[name] == request[name].first
      decreases names
    {
      var name :| name in names;
      params := params[name := request[name].first];
      names := names - {name};
    }
  }

  /** The order a notification settles: only a successful trade with a valid
      signature and an out_trade_no that parses as a long names one. */
  function NotifiedOrder(request: ParameterMap, signatureValid: bool): Option<int> {
    if GetParameter(request, "trade_status") == Some(TradeSuccess) && signatureValid then
      match GetParameter(request, "out_trade_no")
      case Some(tradeNo) => ParseLong(tradeNo)
      case None => None
    else None
  }

  datatype Tables = Tables(orders: map<int, Order>, products: map<int, Product>)

  /** A notification settles an order when it names one whose product still
      exists; any other notification ends the handler without a write. */
  predicate Settles(t: Tables, request: ParameterMap, signatureValid: bool) {
    var id := NotifiedOrder(request, signatureValid);
    id.Some? && id.value in t.orders && t.orders[id.value].productId in t.products
  }

  /** The tables after one notification. A failed signature, another trade
      status, an unreadable trade number or a missing order or product change
      nothing (the last three end the handler with an exception). Otherwise
      the product's stock moves into its sales and the order is marked paid
      (1), each by a write whose outcome is not checked; neither the stock
      nor the order's current status is checked. */
  function AfterNotify(t: Tables, request: ParameterMap, signatureValid: bool, productWriteOk: bool, orderWriteOk: bool): (r: Tables)
    requires forall k :: k in t.orders ==> t.orders[k].id == k
    requires forall k :: k in t.products ==> t.products[k].id == k
    ensures GetParameter(request, "trade_status") != Some(TradeSuccess) ==> r == t
    ensures !signatureValid ==> r == t
    ensures r.orders.Keys == t.orders.Keys && r.products.Keys == t.products.Keys
    ensures forall k :: k in r.orders ==> r.orders[k] == t.orders[k] || r.orders[k] == t.orders[k].(status := 1)
    ensures StockAndSalesConserved(t.products, r.products)
    ensures OrdersKeepCreationFields(t.orders, r.orders)
    ensures !Settles(t, request, signatureValid) ==> r == t
    ensures Settles(t, request, signatureValid) ==>
      var order := t.orders[NotifiedOrder(request, signatureValid).value];
      && r.orders == (if orderWriteOk then t.orders[order.id := order.(status := 1)] else t.orders)
      && r.products == (if productWriteOk then t.products[order.productId := Sold(t.products[order.productId], order.quantity)]
                        else t.products)
  {
    match NotifiedOrder(request, signatureValid)
    case None => t
    case Some(id) =>
      if id !in t.orders || t.orders[id].productId !in t.products then t
      else
        var order := t.orders[id];
        var product := t.products[order.productId];
        var products := if productWriteOk then t.products[product.id := Sold(product, order.quantity)] else t.products;
        var orders := if orderWriteOk then t.orders[order.id := order.(status := 1)] else t.orders;
        Tables(orders, products)
  }

  /** handlePaymentNotify, applied to the store. */
  method HandlePaymentNotify(db: Store, request: ParameterMap, signatureValid: bool, productWriteOk: bool, orderWriteOk: bool)
    requires db.Valid()
    modifies db`orders, db`products
    ensures db.Valid()
    ensures Tables(db.orders, db.products)
         == AfterNotify(Tables(old(db.orders), old(db.products)), request, signatureValid, productWriteOk, orderWriteOk)
  {
    var tradeStatus := GetParameter(request, "trade_status");
    if tradeStatus.None? || tradeStatus.value != TradeSuccess {
      return;
    }
    var params := CollectParams(request);
    if !signatureValid {
      return;
    }
    if "out_trade_no" !in params {
      return;
    }
    var orderId := ParseLong(params["out_trade_no"]);
    if orderId.None? || orderId.value !in db.orders {
      return;
    }
    var order := db.orders[orderId.value];
    if order.productId !in db.products {
      return;
    }
    var product := db.products[order.productId];
    if productWriteOk {
      db.products := db.products[product.id := Sold(product, order.quantity)];
    }
    if orderWriteOk {
      db.orders := db.orders[order.id := order.(status := 1)];
    }
  }

  /** The notification for a payment request settles the order the request
      was made for. */
  lemma NotifyForRequestSettlesItsOrder(
    orders: map<int, Order>, products: map<int, Product>, orderId: int, request: ParameterMap)
    requires forall k :: k in orders ==> orders[k].id == k
    requires forall k :: k in products ==> products[k].id == k
    requires PaymentRequestFor(orders, products, orderId).Ok?
    requires InLongRange(orderId)
    requires GetParameter(request, "trade_status") == Some(TradeSuccess)
    requires GetParameter(request, "out_trade_no") == Some(PaymentRequestFor(orders, products, orderId).value.outTradeNo)
    ensures NotifiedOrder(request, true) == Some(orderId)
    ensures
      var after := AfterNotify(Tables(orders, products), request, true, true, true);
      var pid := orders[orderId].productId;
      && after.orders[orderId] == orders[orderId].(status := 1)
      && after.products[pid] == Sold(products[pid], orders[orderId].quantity)
  {
  }

  /** The handler does not recognise a notification it has already applied:
      a second delivery of the same notification sells the quantity again. */
  lemma RepeatedNotifySellsAgain(t: Tables, request: ParameterMap, id: int)
    requires forall k :: k in t.orders ==> t.orders[k].id == k
    requires forall k :: k in t.products ==> t.products[k].id == k
    requires NotifiedOrder(request, true) == Some(id)
    requires id in t.orders && t.orders[id].productId in t.products
    ensures
      var once := AfterNotify(t, request, true, true, true);
      var twice := AfterNotify(once, request, true, true, true);
      var pid := t.orders[id].productId;
      && twice.products[pid].stock == t.products[pid].stock - 2 * t.orders[id].quantity
      && twice.products[pid].salesCount == t.products[pid].salesCount + 2 * t.orders[id].quantity
  {
  }

  /** A store in which the stock is enough for one sale but a redelivered
      notification leaves it negative. */
  lemma RepeatedNotifyCanOversell()
    ensures
      var order := Order(1, 7, 2, 1, 500, 500, 0, 0, 0, "", "", "", 0);
      var product := Product(2, 3, 4, "apples", 500, 400, 0, 1, 0, 1, 0);
      var t := Tables(map[1 := order], map[2 := product]);
      var request := map["trade_status" := ParamValues(TradeSuccess, []), "out_trade_no" := ParamValues("1", [])];
      && StockNonNegative(t.products)
      && !StockNonNegative(AfterNotify(AfterNotify(t, request, true, true, true), request, true, true, true).products)
  {
    var order := Order(1, 7, 2, 1, 500, 500, 0, 0, 0, "", "", "", 0);
    var product := Product(2, 3, 4, "apples", 500, 400, 0, 1, 0, 1, 0);
    var t := Tables(map[1 := order], map[2 := product]);
    var request := map["trade_status" := ParamValues(TradeSuccess, []), "out_trade_no" := ParamValues("1", [])];
    assert ParseLong("1") == Some(1) by {
      assert FormatLong(1) == "1";
      ParseFormat(1);
    }
    RepeatedNotifySellsAgain(t, request, 1);
  }
}
