/** The catalogue: product creation and updates, status changes one by one
    and in batches, deletes guarded by the rows that still refer to a
    product, and the price filter and sort key of the product query. */
module ProductService {
  import opened Entities
  import opened Database

  /** The body of an update request; the mapper writes only the fields that
      are present (a Java null is `None`). */
  datatype ProductPatch = ProductPatch(
    farmerId: Option<int>,
    categoryId: Option<int>,
    name: Option<string>,
    price: Option<int>,
    discountPrice: Option<int>,
    isDiscount: Option<int>,
    stock: Option<int>,
    salesCount: Option<int>,
    status: Option<int>,
    createdAt: Option<int>)

  function MergeProduct(existing: Product, patch: ProductPatch): Product {
    existing.(
      farmerId := Pick(patch.farmerId, existing.farmerId),
      categoryId := Pick(patch.categoryId, existing.categoryId),
      name := Pick(patch.name, existing.name),
      price := Pick(patch.price, existing.price),
      discountPrice := Pick(patch.discountPrice, existing.discountPrice),
      isDiscount := Pick(patch.isDiscount, existing.isDiscount),
      stock := Pick(patch.stock, existing.stock),
      salesCount := Pick(patch.salesCount, existing.salesCount),
      status := Pick(patch.status, existing.status),
      createdAt := Pick(patch.createdAt, existing.createdAt))
  }

  /** createProduct: inserts the product under a fresh id. */
  method CreateProduct(db: Store, product: Product, insertOk: bool) returns (r: Result<Product>)
    requires db.Valid()
    modifies db`products, db`nextProductId
    ensures db.Valid()
    ensures r.Ok? <==> insertOk
    ensures r.Ok? ==>
      && r.value == product.(id := old(db.nextProductId))
      && r.value.id !in old(db.products)
      && db.products == old(db.products)[r.value.id := r.value]
    ensures r.Err? ==> r == Err(WriteFailed) && db.products == old(db.products)
  {
    if !insertOk {
      return Err(WriteFailed);
    }
    var created := product.(id := db.nextProductId);
    db.products := db.products[created.id := created];
    db.nextProductId := db.nextProductId + 1;
    r := Ok(created);
  }

  /** updateProduct: a negative stock is refused before anything is written,
      so this path never stores a negative stock. A missing stock fails the
      comparison itself (the unboxing throws) and is reported as an
      unexpected error. */
  method UpdateProduct(db: Store, id: int, patch: ProductPatch, writeOk: bool) returns (r: Outcome)
    requires db.Valid()
    modifies db`products
    ensures db.Valid()
    ensures patch.stock.None? ==> r == Fail(Unexpected)
    ensures patch.stock.Some? && patch.stock.value < 0 ==> r == Fail(NegativeStock)
    ensures patch.stock.Some? && patch.stock.value >= 0 && (id !in old(db.products) || !writeOk) ==>
      r == Fail(WriteFailed)
    ensures r.Pass? <==> patch.stock.Some? && patch.stock.value >= 0 && id in old(db.products) && writeOk
    ensures r.Pass? ==> db.products == old(db.products)[id := MergeProduct(old(db.products)[id], patch)]
    ensures r.Fail? ==> db.products == old(db.products)
    ensures StockNonNegative(old(db.products)) ==> StockNonNegative(db.products)
  {
    if patch.stock.None? {
      return Fail(Unexpected);
    }
    if patch.stock.value < 0 {
      return Fail(NegativeStock);
    }
    if id !in db.products || !writeOk {
      return Fail(WriteFailed);
    }
    db.products := db.products[id := MergeProduct(db.products[id], patch)];
    r := Pass;
  }

  /** updateProductStatus: refuses an unknown id; otherwise only the status
      of that product changes. */
  method UpdateProductStatus(db: Store, id: int, status: int, writeOk: bool) returns (r: Outcome)
    requires db.Valid()
    modifies db`products
    ensures db.Valid()
    ensures id !in old(db.products) ==> r == Fail(ProductNotFound)
    ensures id in old(db.products) && !writeOk ==> r == Fail(WriteFailed)
    ensures r.Pass? <==> id in old(db.products) && writeOk
    ensures r.Pass? ==> db.products == old(db.products)[id := old(db.products)[id].(status := status)]
    ensures r.Fail? ==> db.products == old(db.products)
  {
    if id !in db.products {
      return Fail(ProductNotFound);
    }
    var product := db.products[id].(status := status);
    if !writeOk {
      return Fail(WriteFailed);
    }
    db.products := db.products[id := product];
    r := Pass;
  }

  // ---------------------------------------------------------------------
  // The delete guard

  /** How many orders name the product. */
  function OrderRefCount(orders: map<int, Order>, productId: int): nat {
    |set k | k in orders && orders[k].productId == productId|
  }

  lemma OrderRefCountPositive(orders: map<int, Order>, productId: int)
    ensures OrderRefCount(orders, productId) > 0 <==> exists k :: k in orders && orders[k].productId == productId
  {
    var s := set k | k in orders && orders[k].productId == productId;
    if !exists k :: k in orders && orders[k].productId == productId {
      assert s == {};
    }
    if exists k :: k in orders && orders[k].productId == productId {
      var k :| k in orders && orders[k].productId == productId;
      assert k in s;
    }
  }

  function RefCount(orders: map<int, Order>, refs: References, relation: Relation, productId: int): nat {
    match relation
    case CarouselItem => RowCount(refs.carousel, productId)
    case OrderRow => OrderRefCount(orders, productId)
    case CartRow => RowCount(refs.cart, productId)
    case ReviewRow => RowCount(refs.review, productId)
    case FavoriteRow => RowCount(refs.favorite, productId)
  }

  /** The position of a relation in the order the guard checks them. */
  function Rank(relation: Relation): nat {
    match relation
    case CarouselItem => 0
    case OrderRow => 1
    case CartRow => 2
    case ReviewRow => 3
    case FavoriteRow => 4
  }

  /** The guard of deleteProduct: the first relation, in the order carousel,
      order, cart, review, favorite, that still has rows for the product. */
  function FirstReference(orders: map<int, Order>, refs: References, productId: int): (r: Option<Relation>)
    ensures r.None? <==> forall relation :: RefCount(orders, refs, relation, productId) == 0
    ensures r.Some? ==>
      && RefCount(orders, refs, r.value, productId) > 0
      && forall relation :: Rank(relation) < Rank(r.value) ==> RefCount(orders, refs, relation, productId) == 0
  {
    if RowCount(refs.carousel, productId) > 0 then Some(CarouselItem)
    else if OrderRefCount(orders, productId) > 0 then Some(OrderRow)
    else if RowCount(refs.cart, productId) > 0 then Some(CartRow)
    else if RowCount(refs.review, productId) > 0 then Some(ReviewRow)
    else if RowCount(refs.favorite, productId) > 0 then Some(FavoriteRow)
    else None
  }

  /** deleteProduct: the product is removed only when no carousel item,
      order, cart line, review or favorite refers to it; otherwise the first
      of those relations that does decides the error. */
  method DeleteProduct(db: Store, id: int) returns (r: Outcome)
    requires db.Valid()
    modifies db`products
    ensures db.Valid()
    ensures FirstReference(db.orders, db.refs, id).Some? ==>
      r == Fail(Referenced(id, FirstReference(db.orders, db.refs, id).value)) && db.products == old(db.products)
    ensures FirstReference(db.orders, db.refs, id).None? && id !in old(db.products) ==> r == Fail(WriteFailed)
    ensures r.Pass? <==> id in old(db.products) && forall relation :: RefCount(db.orders, db.refs, relation, id) == 0
    ensures r.Pass? ==> db.products == old(db.products) - {id}
    ensures r.Pass? ==> forall k :: k in db.orders ==> db.orders[k].productId != id
    ensures r.Fail? ==> db.products == old(db.products)
  {
    var blocking := FirstReference(db.orders, db.refs, id);
    OrderRefCountPositive(db.orders, id);
    if blocking.Some? {
      return Fail(Referenced(id, blocking.value));
    }
    if id !in db.products {
      return Fail(WriteFailed);
    }
    db.products := db.products - {id};
    r := Pass;
  }

  datatype Conflict = Conflict(id: int, relation: Relation)

  /** The first id of a batch that something still refers to, with the
      first relation that does. */
  function BatchConflict(orders: map<int, Order>, refs: References, ids: seq<int>): (r: Option<Conflict>)
    ensures r.None? <==> forall i :: 0 <= i < |ids| ==> FirstReference(orders, refs, ids[i]).None?
    ensures forall i :: 0 <= i < |ids| && FirstReference(orders, refs, ids[i]).Some?
                        && (forall j :: 0 <= j < i ==> FirstReference(orders, refs, ids[j]).None?) ==>
      r == Some(Conflict(ids[i], FirstReference(orders, refs, ids[i]).value))
    decreases |ids|
  {
    if ids == [] then None
    else
      match FirstReference(orders, refs, ids[0])
      case Some(relation) => Some(Conflict(ids[0], relation))
      case None =>
        assert forall i :: 1 <= i < |ids| ==> ids[1..][i - 1] == ids[i];
        BatchConflict(orders, refs, ids[1..])
  }

  /** deleteBatch: checks every id, in order, before deleting any; the first
      id that is still referred to stops the batch and nothing is deleted.
      The batch fails as well when none of the ids exists. */
  method DeleteBatch(db: Store, ids: seq<int>) returns (r: Outcome)
    requires db.Valid()
    modifies db`products
    ensures db.Valid()
    ensures BatchConflict(db.orders, db.refs, ids).Some? ==>
      var c := BatchConflict(db.orders, db.refs, ids).value;
      r == Fail(Referenced(c.id, c.relation)) && db.products == old(db.products)
    ensures BatchConflict(db.orders, db.refs, ids).None? ==>
      && db.products == old(db.products) - (set x | x in ids)
      && r == if exists i :: 0 <= i < |ids| && ids[i] in old(db.products) then Pass else Fail(WriteFailed)
  {
    for i := 0 to |ids|
      invariant forall j :: 0 <= j < i ==> FirstReference(db.orders, db.refs, ids[j]).None?
    {
      var blocking := FirstReference(db.orders, db.refs, ids[i]);
      if blocking.Some? {
        return Fail(Referenced(ids[i], blocking.value));
      }
    }
    var deleted := exists i :: 0 <= i < |ids| && ids[i] in db.products;
    db.products := db.products - (set x | x in ids);
    r := if deleted then Pass else Fail(WriteFailed);
  }

  // ---------------------------------------------------------------------
  // Batch status update

  /** The ids of the batch that name a stored product. */
  function FoundIds(products: map<int, Product>, ids: seq<int>): set<int> {
    set x | x in ids && x in products
  }

  /** At most one product is found per id, and one id that names no product
      makes the found set smaller than the batch. */
  lemma {:induction false} FoundIdsBound(products: map<int, Product>, ids: seq<int>)
    ensures |FoundIds(products, ids)| <= |ids|
    ensures (exists i :: 0 <= i < |ids| && ids[i] !in products) ==> |FoundIds(products, ids)| < |ids|
  {
    if ids != [] {
      var rest := ids[1..];
      FoundIdsBound(products, rest);
      var head := if ids[0] in products then {ids[0]} else {};
      assert FoundIds(products, ids) == FoundIds(products, rest) + head by {
        assert forall x :: x in ids <==> x == ids[0] || x in rest;
      }
      if exists i :: 0 <= i < |ids| && ids[i] !in products {
        var i :| 0 <= i < |ids| && ids[i] !in products;
        if i > 0 {
          assert rest[i - 1] == ids[i];
        }
      }
    }
  }

  /** The products with the given keys set to `status`, the others as they were. */
  function WithStatus(products: map<int, Product>, keys: set<int>, status: int): map<int, Product> {
    map k | k in products :: if k in keys then products[k].(status := status) else products[k]
  }

  /** updateBatchStatus: refuses a status other than 0 or 1, a batch of which
      no product exists and a batch with fewer products found than ids
      given; then writes each product's new status, and succeeds only if
      every write did. Writes that went through stay when another fails. */
  method UpdateBatchStatus(db: Store, ids: seq<int>, status: int, failing: set<int>) returns (r: Outcome)
    requires db.Valid()
    modifies db`products
    ensures db.Valid()
    ensures status != 0 && status != 1 ==> r == Fail(InvalidStatus) && db.products == old(db.products)
    ensures (status == 0 || status == 1) && FoundIds(old(db.products), ids) == {} ==>
      r == Fail(NoProductsFound) && db.products == old(db.products)
    ensures (status == 0 || status == 1) && FoundIds(old(db.products), ids) != {}
            && |FoundIds(old(db.products), ids)| != |ids| ==>
      r == Fail(SomeProductsMissing) && db.products == old(db.products)
    ensures (status == 0 || status == 1) && FoundIds(old(db.products), ids) != {}
            && |FoundIds(old(db.products), ids)| == |ids| ==>
      && db.products == WithStatus(old(db.products), (set x | x in ids && x !in failing), status)
      && r == if forall i :: 0 <= i < |ids| ==> ids[i] !in failing then Pass else Fail(PartialUpdate)
    ensures r.Pass? ==> forall i :: 0 <= i < |ids| ==> ids[i] in db.products && db.products[ids[i]].status == status
  {
    if status != 0 && status != 1 {
      return Fail(InvalidStatus);
    }
    var found := FoundIds(db.products, ids);
    if found == {} {
      return Fail(NoProductsFound);
    }
    if |found| != |ids| {
      return Fail(SomeProductsMissing);
    }
    FoundIdsBound(db.products, ids);
    var successCount := 0;
    for i := 0 to |ids|
      invariant successCount <= i
      invariant successCount == i <==> forall j :: 0 <= j < i ==> ids[j] !in failing
      invariant db.products == WithStatus(old(db.products), (set x | x in ids[..i] && x !in failing), status)
    {
      var id := ids[i];
      if id !in failing {
        db.products := db.products[id := db.products[id].(status := status)];
        successCount := successCount + 1;
      }
      assert ids[..i + 1] == ids[..i] + [id];
    }
    assert ids[..|ids|] == ids;
    r := if successCount == |found| then Pass else Fail(PartialUpdate);
  }

  // ---------------------------------------------------------------------
  // The price filter and sort key of the product query

  /** What the buyer pays: the discount price while the discount is on,
      the list price otherwise. */
  function EffectivePrice(p: Product): int {
    if p.isDiscount == 1 then p.discountPrice else p.price
  }

  predicate WithinBounds(x: int, minPrice: Option<int>, maxPrice: Option<int>) {
    (minPrice.Some? ==> minPrice.value <= x) && (maxPrice.Some? ==> x <= maxPrice.value)
  }

  /** The price-range condition of getProductsByPage, written as its query
      writes it: a discounted product is compared by its discount price, an
      undiscounted one by its list price. With neither bound given no
      condition is added; with one given, a discount flag other than 0 or 1
      matches neither branch. */
  function PassesPriceFilter(p: Product, minPrice: Option<int>, maxPrice: Option<int>): (r: bool)
    ensures r <==>
      (minPrice.None? && maxPrice.None?)
      || ((p.isDiscount == 0 || p.isDiscount == 1) && WithinBounds(EffectivePrice(p), minPrice, maxPrice))
  {
    if minPrice.None? && maxPrice.None? then true
    else
      || (&& p.isDiscount == 1
          && (minPrice.Some? ==> p.discountPrice >= minPrice.value)
          && (maxPrice.Some? ==> p.discountPrice <= maxPrice.value))
      || (&& p.isDiscount == 0
          && (minPrice.Some? ==> p.price >= minPrice.value)
          && (maxPrice.Some? ==> p.price <= maxPrice.value))
  }

  datatype SortColumn = SalesCount | PriceColumn | CreatedAt

  datatype Ordering = Ordering(column: SortColumn, ascending: bool)

  /** Java's case-insensitive comparison with "asc": besides the ASCII
      letters it matches U+017F (long s), whose upper case is 'S'. */
  predicate IsAscKeyword(s: string) {
    && |s| == 3
    && (s[0] == 'a' || s[0] == 'A')
    && (s[1] == 's' || s[1] == 'S' || s[1] == 'ſ')
    && (s[2] == 'c' || s[2] == 'C')
  }

  /** The ordering of getProductsByPage: "sales" and "price" sort in the
      requested direction, anything else newest first. */
  function ProductOrdering(sortField: Option<string>, sortOrder: Option<string>): (r: Ordering)
    ensures r.column == PriceColumn <==> sortField == Some("price")
    ensures r.column == SalesCount <==> sortField == Some("sales")
    ensures r.column == CreatedAt ==> !r.ascending
    ensures r.column != CreatedAt ==> (r.ascending <==> sortOrder.Some? && IsAscKeyword(sortOrder.value))
  {
    var ascending := sortOrder.Some? && IsAscKeyword(sortOrder.value);
    match sortField
    case Some(field) =>
      if field == [] then Ordering(CreatedAt, false)
      else if field == "sales" then Ordering(SalesCount, ascending)
      else if field == "price" then Ordering(PriceColumn, ascending)
      else Ordering(CreatedAt, false)
    case None => Ordering(CreatedAt, false)
  }

  /** The value a product is sorted by in a column. */
  function SortKey(column: SortColumn, p: Product): int {
    match column
    case SalesCount => p.salesCount
    case PriceColumn => EffectivePrice(p)
    case CreatedAt => p.createdAt
  }

  /** Sorting by price uses the same price as the filter: every product the
      filter lets through has its sort key within the bounds. */
  lemma PriceSortAgreesWithFilter(p: Product, minPrice: Option<int>, maxPrice: Option<int>)
    requires PassesPriceFilter(p, minPrice, maxPrice)
    ensures SortKey(PriceColumn, p) == EffectivePrice(p)
    ensures WithinBounds(SortKey(PriceColumn, p), minPrice, maxPrice)
  {
  }
}
