/** InventoryService: the stock ledger operations over the product table.
    Each mutator loads the product, calls the entity's ledger method and
    saves it back; the queries filter `findAll` on stock. */
module InventoryService {
  import opened Common
  import opened Tables
  import opened Products
  import opened Store

  method AddStock(db: Database, productId: Id, quantity: int) returns (r: Result<ProductRow>)
    requires db.Valid()
    modifies db`products
    ensures db.Valid()
    ensures productId !in old(db.products.rows) ==>
      r == Err(ProductNotFound(productId)) && db.products == old(db.products)
    ensures productId in old(db.products.rows) ==>
      && r == Ok(old(db.products.rows[productId]).StockAdded(quantity))
      && db.products == old(db.products).Put(productId, r.value)
  {
    var found := db.products.Get(productId);
    if found.None? {
      return Err(ProductNotFound(productId));
    }
    var product := new Product.Load(found.value);
    product.AddStock(quantity);
    db.CommitProducts(db.products.Put(productId, product.Row()));
    return Ok(product.Row());
  }

  /** Fails with the available and requested quantities, saving nothing, when
      the stock does not cover the request. */
  method ReduceStock(db: Database, productId: Id, quantity: int) returns (r: Result<ProductRow>)
    requires db.Valid()
    modifies db`products
    ensures db.Valid()
    ensures r.Err? ==> db.products == old(db.products)
    ensures productId !in old(db.products.rows) ==> r == Err(ProductNotFound(productId))
    ensures productId in old(db.products.rows) ==>
      var before := old(db.products.rows[productId]);
      && (before.stockQuantity < quantity ==> r == Err(InsufficientStock(before.stockQuantity, quantity)))
      && (before.stockQuantity >= quantity ==>
            && r == Ok(before.StockReduced(quantity).value)
            && db.products == old(db.products).Put(productId, r.value))
  {
    var found := db.products.Get(productId);
    if found.None? {
      return Err(ProductNotFound(productId));
    }
    var product := new Product.Load(found.value);
    var ok := product.ReduceStock(quantity);
    if !ok {
      return Err(InsufficientStock(product.stockQuantity, quantity));
    }
    db.CommitProducts(db.products.Put(productId, product.Row()));
    return Ok(product.Row());
  }

  method UpdateStock(db: Database, productId: Id, newQuantity: int) returns (r: Result<ProductRow>)
    requires db.Valid()
    modifies db`products
    ensures db.Valid()
    ensures productId !in old(db.products.rows) ==>
      r == Err(ProductNotFound(productId)) && db.products == old(db.products)
    ensures productId in old(db.products.rows) ==>
      && r == Ok(old(db.products.rows[productId]).WithStock(newQuantity))
      && db.products == old(db.products).Put(productId, r.value)
  {
    var found := db.products.Get(productId);
    if found.None? {
      return Err(ProductNotFound(productId));
    }
    var product := new Product.Load(found.value);
    product.SetStockQuantity(newQuantity);
    db.CommitProducts(db.products.Put(productId, product.Row()));
    return Ok(product.Row());
  }

  method SetMinStockLevel(db: Database, productId: Id, minLevel: int) returns (r: Result<ProductRow>)
    requires db.Valid()
    modifies db`products
    ensures db.Valid()
    ensures productId !in old(db.products.rows) ==>
      r == Err(ProductNotFound(productId)) && db.products == old(db.products)
    ensures productId in old(db.products.rows) ==>
      && r == Ok(old(db.products.rows[productId]).WithMinStockLevel(minLevel))
      && db.products == old(db.products).Put(productId, r.value)
  {
    var found := db.products.Get(productId);
    if found.None? {
      return Err(ProductNotFound(productId));
    }
    var product := new Product.Load(found.value);
    product.SetMinStockLevel(minLevel);
    db.CommitProducts(db.products.Put(productId, product.Row()));
    return Ok(product.Row());
  }

  /** Starting from 100 units, taking 30 leaves 70 and the product
      available; adding 50 gives 150. */
  lemma StockScenario(r: ProductRow)
    requires r.stockQuantity == 100
    ensures r.StockReduced(30).Some? && r.StockReduced(30).value.stockQuantity == 70
    ensures r.StockReduced(30).value.isAvailable
    ensures r.StockAdded(50).stockQuantity == 150 && r.StockAdded(50).isAvailable
  {
  }

  /** Nothing keeps the stock from going below zero: the ledger takes any
      quantity, and a negative one added to an empty product leaves a
      negative stock, flagged unavailable. */
  lemma StockCanGoNegative(r: ProductRow, q: int)
    requires r.stockQuantity == 0 && q < 0
    ensures r.StockAdded(q).stockQuantity < 0 && !r.StockAdded(q).isAvailable
    ensures r.WithStock(q).stockQuantity < 0
  {
  }

  /** `getLowStockProducts`: the products at or below their threshold. */
  function GetLowStockProducts(products: Table<ProductRow>): (r: seq<ProductEntity>)
    requires products.Valid()
    ensures Distinct(r) && Subsequence(r, products.All())
    ensures forall e :: e in r <==> e.0 in products.rows && products.rows[e.0] == e.1 && e.1.stockQuantity <= e.1.minStockLevel
  {
    Where(products, (e: ProductEntity) => e.1.LowStock())
  }

  /** `getOutOfStockProducts`: the products with no stock left. */
  function GetOutOfStockProducts(products: Table<ProductRow>): (r: seq<ProductEntity>)
    requires products.Valid()
    ensures Distinct(r) && Subsequence(r, products.All())
    ensures forall e :: e in r <==> e.0 in products.rows && products.rows[e.0] == e.1 && e.1.stockQuantity <= 0
  {
    Where(products, (e: ProductEntity) => !e.1.InStock())
  }

  /** `getAvailableProducts`: the products with stock, whatever their flag. */
  function GetAvailableProducts(products: Table<ProductRow>): (r: seq<ProductEntity>)
    requires products.Valid()
    ensures Distinct(r) && Subsequence(r, products.All())
    ensures forall e :: e in r <==> e.0 in products.rows && products.rows[e.0] == e.1 && e.1.stockQuantity > 0
  {
    Where(products, (e: ProductEntity) => e.1.InStock())
  }

  /** The low-stock query of the inventory tests: the only product, with a
      stock of 100, has its threshold raised to 150 and is then listed alone. */
  lemma LowStockScenario(products: Table<ProductRow>, id: Id)
    requires products.Valid() && products.rows.Keys == {id} && products.rows[id].stockQuantity == 100
    ensures var t := products.Put(id, products.rows[id].WithMinStockLevel(150));
      GetLowStockProducts(t) == [(id, t.rows[id])]
  {
    var t := products.Put(id, products.rows[id].WithMinStockLevel(150));
    OnlyElement(GetLowStockProducts(t), (id, t.rows[id]));
  }

  /** Out-of-stock and available split the catalogue: every product is in
      exactly one of the two lists. */
  lemma OutOfStockAndAvailablePartition(products: Table<ProductRow>)
    requires products.Valid()
    ensures |GetOutOfStockProducts(products)| + |GetAvailableProducts(products)| == |products.rows|
    ensures multiset(GetOutOfStockProducts(products)) + multiset(GetAvailableProducts(products)) == multiset(products.All())
  {
    FilterPartition(products.All(), (e: ProductEntity) => !e.1.InStock(), (e: ProductEntity) => e.1.InStock());
    SizeIsIdCount(products);
  }

  /** True iff the product exists and holds at least `quantity`; an unknown
      id gives false, not an error. */
  function CheckStockAvailability(products: Table<ProductRow>, productId: Id, quantity: int): (b: bool)
    ensures b <==> productId in products.rows && products.rows[productId].stockQuantity >= quantity
  {
    var found := products.Get(productId);
    found.Some? && found.value.stockQuantity >= quantity
  }
}
