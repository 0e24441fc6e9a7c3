# Marketplace order lifecycle and catalogue rules, in Dafny

This project models the core of a farmer-to-buyer marketplace backend (a
Spring Boot service). It covers:

- the order lifecycle of `OrderService`: checkout with a stock check, status
  changes, refund requests, payment, address changes, full updates, deletes,
  and the farmer filter of the order query;
- the catalogue rules of `ProductService`: the non-negative stock check, the
  status updates, the delete guard over five dependent relations, and the
  price filter and sort key of the product query;
- the Alipay integration of `AlipayService`: the payment request built for
  an order, and the state change of the gateway's asynchronous notification.

The database is a class `Database.Store`. Its fields are two maps,
`orders: map<int, Order>` and `products: map<int, Product>`, the row counts
of carousel items, cart lines, reviews and favorites per product id, and the
two auto-increment counters. `Store.Valid()` says that every row sits under
its own id and below its counter. Every operation that writes is a method
that takes the store, reads a row, changes it and writes it back. Its
postcondition states the whole new state and the error returned on each
failing path. The read-only parts (the payment request, the order query,
the delete guard, the price filter and the sort order) are functions over
the maps. Around the methods, invariants are proved:

- stock stays non-negative through `CreateOrder`, `PayOrder` and
  `UpdateProduct`;
- stock + salesCount is conserved by payment;
- an order's id, creation time, buyer, product and total never change.

The outcome of a mapper write that may affect no row is a boolean parameter
(`insertOk`, `writeOk`, `productWriteOk`, `orderWriteOk`, or the set
`failing` in the batch update). A delete affects rows exactly when a
listed key is present. A mapper update writes only the fields that are
present, so the bodies of update requests are `OrderPatch`/`ProductPatch`
records whose fields are `Option`s. Money is in integer cents. Every
`Result.error` of the services is a variant of `Entities.Error`.

Modules: `Entities` (records, errors, shared predicates), `Database` (the
store), `OrderService`, `ProductService`, `TradeNo` (the order id written
as a Java `long` and read back with `Long.parseLong`) and `AlipayService`.

Where the code and its design description differ, the model follows the
code:

- `payOrder` on an order whose product is gone reports success and changes
  nothing.
- `payOrder` never checks the order's current status.
- The payment request charges quantity × the product's current price, not
  the price stored on the order.
- `createOrder` takes the order's price from the request body and does not
  check that the quantity is positive.
- The notification handler neither checks stock nor recognises an order it
  has already settled. `AlipayService.RepeatedNotifyCanOversell` shows a
  redelivered notification driving stock below zero.
- The price filter rejects every product whose discount flag is neither 0
  nor 1. The price sort key treats such a product as undiscounted.
- `updateBatchStatus` compares the number of products found with the
  number of ids given. A batch that repeats an id is therefore refused as
  "some products missing".

## Model

| member | source | states |
|---|---|---|
| `OrderService.CreateOrder` | springboot/src/main/java/org/example/springboot/service/OrderService.java:37-65 | unknown product and stock < quantity fail with nothing changed; on success the order gets a fresh id and totalPrice = price × quantity, and stock drops by exactly the quantity when the stock write succeeds; a failed insert changes no stock; non-negative stock is preserved |
| `OrderService.UpdateOrderStatus` | springboot/src/main/java/org/example/springboot/service/OrderService.java:67-86 | unknown id fails; otherwise lastStatus becomes the old status and status the given integer, and creation fields are kept |
| `OrderService.RefundOrder` | springboot/src/main/java/org/example/springboot/service/OrderService.java:191-215 | unknown order, a status other than 1 or 2, and a failed write each give their own error with nothing changed; success iff the order exists, its status is 1 or 2 and the write succeeds, and then only refundStatus = 1 and refundReason change |
| `OrderService.PayOrder` | springboot/src/main/java/org/example/springboot/service/OrderService.java:236-262 | unknown order fails; missing product succeeds with no change; stock < quantity fails with no change; otherwise the product is sold (salesCount += q, stock -= q) and the order marked paid; stock + salesCount conserved, stock stays non-negative |
| `OrderService.UpdateOrderAddress` | springboot/src/main/java/org/example/springboot/service/OrderService.java:264-289 | unknown order, status > 1 and a failed write each give their own error with nothing changed; otherwise only recvAddress and recvPhone change |
| `OrderService.UpdateOrder` | springboot/src/main/java/org/example/springboot/service/OrderService.java:290-317 | unknown id fails; otherwise the patch is written over the row with the creation fields forced from the stored row |
| `OrderService.MergeOrder` | springboot/src/main/java/org/example/springboot/service/OrderService.java:298-305 | whatever the patch, id, createdAt, userId, productId and totalPrice stay those of the stored row; each of the eight other fields takes the patch's value when present and keeps the stored value when absent |
| `OrderService.MergeFullPatch` | springboot/src/main/java/org/example/springboot/service/OrderService.java:249-257 | writing back a loaded row changed only outside its creation fields (as payOrder does through updateOrder) stores exactly that row |
| `OrderService.DeleteOrder` | springboot/src/main/java/org/example/springboot/service/OrderService.java:88-101 | removes the order without any reference check; fails only when it does not exist |
| `OrderService.DeleteBatch` | springboot/src/main/java/org/example/springboot/service/OrderService.java:217-235 | removes every listed order; fails only when none existed |
| `OrderService.OrdersByPage` | springboot/src/main/java/org/example/springboot/service/OrderService.java:131-189 | a farmer with no products gets an empty page with total 0; otherwise an order is returned iff it matches the given filters and, under a farmer filter, its product exists and belongs to that farmer; each row carries the stored product and its farmer's id, both absent exactly when the product no longer exists |
| `ProductService.CreateProduct` | springboot/src/main/java/org/example/springboot/service/ProductService.java:49-61 | a successful insert stores the product under a fresh id; a failed one changes nothing |
| `ProductService.UpdateProduct` | springboot/src/main/java/org/example/springboot/service/ProductService.java:63-89 | a missing stock, a negative stock, and an unknown id or failed write each give their own error with nothing changed; a negative stock is refused before any write, so non-negative stock is preserved; success iff the stock is given and non-negative, the product exists and the write succeeds, and then the patch is written over the row |
| `ProductService.UpdateProductStatus` | springboot/src/main/java/org/example/springboot/service/ProductService.java:229-241 | unknown id and a failed write each give their own error with nothing changed; otherwise only that product's status changes |
| `ProductService.OrderRefCountPositive` | springboot/src/main/java/org/example/springboot/service/ProductService.java:101-107 | the order count for a product is positive iff some order names it |
| `ProductService.FirstReference` | springboot/src/main/java/org/example/springboot/service/ProductService.java:94-131 | none iff all five relation counts are zero; otherwise a relation with rows such that every relation checked before it (carousel, order, cart, review, favorite) has none |
| `ProductService.DeleteProduct` | springboot/src/main/java/org/example/springboot/service/ProductService.java:91-143 | deletes iff the product exists and all five counts are zero, after which no order names it; otherwise the first relation with rows decides the error, an unreferenced unknown id fails as a failed write, and nothing changes |
| `ProductService.BatchConflict` | springboot/src/main/java/org/example/springboot/service/ProductService.java:246-281 | none iff no id of the batch is referred to; otherwise the first such id, with its first relation |
| `ProductService.DeleteBatch` | springboot/src/main/java/org/example/springboot/service/ProductService.java:243-293 | a referred-to id anywhere in the batch deletes nothing and reports the first one; otherwise every listed product is removed, failing only when none existed |
| `ProductService.FoundIdsBound` | springboot/src/main/java/org/example/springboot/service/ProductService.java:303-309 | at most one product is found per id, and an id that names no product makes the found set smaller than the batch |
| `ProductService.UpdateBatchStatus` | springboot/src/main/java/org/example/springboot/service/ProductService.java:294-330 | status other than 0/1, no product found, or fewer found than ids fail with no change; otherwise every listed product whose write succeeds gets the status, and the batch succeeds iff every write did, in which case every listed product has the new status |
| `ProductService.PassesPriceFilter` | springboot/src/main/java/org/example/springboot/service/ProductService.java:176-196 | with no bound a product always passes; with a bound it passes iff its discount flag is 0 or 1 and its effective price lies within the bounds |
| `ProductService.ProductOrdering` | springboot/src/main/java/org/example/springboot/service/ProductService.java:199-215 | "price" sorts by the price column and "sales" by sales count, ascending iff the order is case-insensitively "asc"; anything else sorts newest first |
| `ProductService.PriceSortAgreesWithFilter` | springboot/src/main/java/org/example/springboot/service/ProductService.java:176-208 | the price sort key is the effective price, and it lies within the bounds for every product the filter lets through |
| `TradeNo.NatDigits` | springboot/src/main/java/org/example/springboot/service/AlipayService.java:82 | an id's decimal text is non-empty, all digits, with no leading zero |
| `TradeNo.ParseLong` | springboot/src/main/java/org/example/springboot/service/AlipayService.java:120 | a parsed trade number always fits in 64 bits |
| `TradeNo.DigitsRoundTrip` | springboot/src/main/java/org/example/springboot/service/AlipayService.java:82-120 | reading the decimal digits of a natural number gives the number back |
| `TradeNo.ParseFormat` | springboot/src/main/java/org/example/springboot/service/AlipayService.java:82-120 | every 64-bit order id sent as out_trade_no parses back to the same id |
| `AlipayService.PaymentRequestFor` | springboot/src/main/java/org/example/springboot/service/AlipayService.java:49-85 | missing order, missing product and stock < quantity are refused in that order, and every other order gets a request; the amount is quantity × the product's current price, the subject is the product name, and out_trade_no parses back to the order id |
| `AlipayService.CollectParams` | springboot/src/main/java/org/example/springboot/service/AlipayService.java:108-112 | the flat map has exactly the request's parameter names, each with its first value |
| `AlipayService.AfterNotify` | springboot/src/main/java/org/example/springboot/service/AlipayService.java:103-138 | no change unless trade_status is TRADE_SUCCESS, the signature is valid, out_trade_no parses and names an order whose product exists; such a notification marks that order paid (status 1) and moves its quantity from stock into sales, each when its write succeeds, with no stock or status check; stock + salesCount conserved; creation fields kept |
| `AlipayService.HandlePaymentNotify` | springboot/src/main/java/org/example/springboot/service/AlipayService.java:103-138 | the store after the handler is exactly `AfterNotify` of the store before it |
| `AlipayService.NotifyForRequestSettlesItsOrder` | springboot/src/main/java/org/example/springboot/service/AlipayService.java:82-121 | a successful, validly signed notification echoing a payment request's out_trade_no names the order the request was made for, marks it paid and sells its quantity |
| `AlipayService.RepeatedNotifySellsAgain` | springboot/src/main/java/org/example/springboot/service/AlipayService.java:121-131 | a redelivered notification sells the quantity a second time |
| `AlipayService.RepeatedNotifyCanOversell` | springboot/src/main/java/org/example/springboot/service/AlipayService.java:121-131 | a store with enough stock for one sale ends with negative stock after the same notification arrives twice |

## Left out

- `OrderService.OrdersByPage`: returns every matching order rather than one page; paging and ordering are done by the database.
- `OrderService.OrdersByPage`: the status filter arrives as a string compared with an integer column; it is modelled as an optional integer.
- `OrderService.OrdersByPage`: enrichment fills in the farmer's id, not the buyer's and farmer's user records. The user table is not part of this model.
- `OrderService.UpdateOrder`, `ProductService.UpdateProduct`: return an outcome, not the echoed request body.
- The other read paths are not part of this model: `getOrderById`, `getOrdersByUserId`, `getProductById`, and the name, category, farmer and status filters of `getProductsByPage`. Each is a plain lookup or query with no rule beyond the query itself.
- The per-id loop of the order `deleteBatch` has an empty body. It has no counterpart in the model.
- `ProductService.UpdateBatchStatus` iterates over the ids rather than over the list the database returned. On the path that writes, the two hold the same distinct products, so the writes are the same. Only their order differs, which the outcome does not depend on.
- ProductService.UpdateProduct: does not model the exception thrown before any write when the stored product has no image (a null imageUrl makes `oldImg.equals` throw, and a product created without an image can be stored); the model has no image field and updates such a product like any other.
- Product images are left out: the `imageUrl` field, and the removal of the old image file in `updateProduct`, which is file I/O.
- The gateway is an external oracle. Not modelled: the Alipay client, the generation of the payment form, the writing of the HTTP response, and the RSA2 signature check. The signature verdict is the boolean `signatureValid`.
- Exceptions in the notification handler are not modelled as errors. A missing trade_status, an unparsable out_trade_no, or a missing order or product raises an exception there. Each is modelled as "nothing changes", since the exception ends the handler before any write.
- `TradeNo.ParseLong` accepts only ASCII digits. `Long.parseLong` also accepts other Unicode decimal digits.
- Arithmetic is exact. Prices are exact integer cents, and the price bounds are exact rather than Double. Stock, sales count and quantity are unbounded: Java's 32-bit wrap-around is not modelled.
- Request bodies are complete records. A null field in a created order (for example a missing price) would throw in the source; that path is not modelled.
- Not modelled: `@Transactional` rollback, concurrent requests (the model is sequential), logging, and the message text of errors.
- The controllers only forward to the services, and `WxPayConfig` only holds configuration. Neither is part of this model.
