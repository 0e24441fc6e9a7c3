/** Records of the marketplace and the error results its services return.
    Prices are integer cents, so `price * quantity` is exact as BigDecimal is. */
module Entities {

  datatype Option<T> = None | Some(value: T)

  datatype Result<T> = Ok(value: T) | Err(error: Error)

  /** A result that carries no value on success. */
  datatype Outcome = Pass | Fail(error: Error)

  /** The value an update writes into a field: the request's where it is
      present (a Java null is `None`), otherwise the stored one. */
  function Pick<T>(field: Option<T>, current: T): T {
    if field.Some? then field.value else current
  }

  /** The five kinds of rows that may refer to a product. */
  datatype Relation = CarouselItem | OrderRow | CartRow | ReviewRow | FavoriteRow

  /** One variant per kind of error of the services (several messages may
      share one, e.g. every write that affects no row). The order and
      product services return them as error results with code "-1"; the
      payment request throws them as exceptions instead. */
  datatype Error =
    | OrderNotFound
    | ProductNotFound
    | InsufficientStock
    | NotRefundable          // status is neither paid (1) nor shipped (2)
    | AlreadyShipped         // status above paid (1): the address is frozen
    | NegativeStock
    | InvalidStatus          // a product status other than 0 or 1
    | NoProductsFound        // none of the ids of a batch exists
    | SomeProductsMissing    // fewer products found than ids given
    | Referenced(id: int, relation: Relation)
    | PaymentFailed          // the product write of a payment affected no row
    | PartialUpdate          // some product writes of a batch affected no row
    | WriteFailed            // an insert, update or delete affected no row
    | Unexpected             // an exception caught and wrapped by the service

  datatype Order = Order(
    id: int,
    userId: int,
    productId: int,
    quantity: int,
    price: int,
    totalPrice: int,
    status: int,          // 0 unpaid, 1 paid, 2 and above shipped and later
    lastStatus: int,
    refundStatus: int,    // 0 none, 1 requested
    refundReason: string,
    recvAddress: string,
    recvPhone: string,
    createdAt: int)

  datatype Product = Product(
    id: int,
    farmerId: int,
    categoryId: int,
    name: string,
    price: int,
    discountPrice: int,
    isDiscount: int,      // 1 while the discount price applies
    stock: int,
    salesCount: int,
    status: int,          // 0 off the shelf, 1 on sale
    createdAt: int)

  /** The product after `quantity` units have been paid for. */
  function Sold(p: Product, quantity: int): Product {
    p.(salesCount := p.salesCount + quantity, stock := p.stock - quantity)
  }

  predicate StockNonNegative(products: map<int, Product>) {
    forall k :: k in products ==> products[k].stock >= 0
  }

  /** Payment moves units from stock into sales: their sum never changes. */
  predicate StockAndSalesConserved(before: map<int, Product>, after: map<int, Product>) {
    forall k :: k in before && k in after ==>
      after[k].stock + after[k].salesCount == before[k].stock + before[k].salesCount
  }

  /** The fields of an order that are fixed once it has been created. */
  predicate CreationFieldsKept(before: Order, after: Order) {
    && after.id == before.id
    && after.createdAt == before.createdAt
    && after.userId == before.userId
    && after.productId == before.productId
    && after.totalPrice == before.totalPrice
  }

  predicate OrdersKeepCreationFields(before: map<int, Order>, after: map<int, Order>) {
    forall k :: k in before && k in after ==> CreationFieldsKept(before[k], after[k])
  }
}
