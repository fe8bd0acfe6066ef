/** ProductService: catalogue validation and defaulting on create, the
    partial overwrite on update, deletion, and the catalogue queries. */
module ProductService {
  import opened Common
  import opened Tables
  import opened Products
  import opened Carts
  import opened Store
  import InventoryService

  /** The largest price a one-sided price filter admits. */
  const DefaultMaxPrice: Money := 999999.99

  /** `getAllProducts` */
  function GetAllProducts(products: Table<ProductRow>): (r: seq<ProductEntity>)
    requires products.Valid()
    ensures |r| == |products.rows| && Distinct(r)
    ensures forall e :: e in r <==> e.0 in products.rows && products.rows[e.0] == e.1
  {
    SizeIsIdCount(products);
    products.All()
  }

  /** `getProductById` */
  function GetProductById(products: Table<ProductRow>, id: Id): (r: Option<ProductRow>)
    ensures r.Some? <==> id in products.rows
    ensures r.Some? ==> r.value == products.rows[id]
  {
    products.Get(id)
  }

  /** The validation of `createProduct`, first failing check first. */
  function CreationError(product: Option<ProductInput>): (r: Option<Invalid>)
    ensures product.None? <==> r == Some(NullProduct)
    ensures r == Some(BlankProductName) <==> product.Some? && NullOrBlank(product.value.name)
    ensures r == Some(BadPrice) <==>
      product.Some? && !NullOrBlank(product.value.name)
      && (product.value.price.None? || product.value.price.value < 0.0)
    ensures r.None? <==>
      product.Some? && !NullOrBlank(product.value.name)
      && product.value.price.Some? && product.value.price.value >= 0.0
  {
    if product.None? then Some(NullProduct)
    else if NullOrBlank(product.value.name) then Some(BlankProductName)
    else if product.value.price.None? || product.value.price.value < 0.0 then Some(BadPrice)
    else None
  }

  /** The product `createProduct` saves: a null stock is set to 0 and a null
      threshold to 5, each through its setter, so availability is then
      recomputed from the stock; with neither null the flag is kept as given. */
  function WithDefaults(p: ProductInput): (r: ProductRow)
    ensures r.name == p.name && r.description == p.description && r.price == p.price
    ensures r.stockQuantity == p.stockQuantity.GetOr(0)
    ensures r.minStockLevel == p.minStockLevel.GetOr(5)
    ensures p.stockQuantity.None? || p.minStockLevel.None? ==> r.AvailabilityHolds()
    ensures p.stockQuantity.None? ==> !r.isAvailable
    ensures p.stockQuantity.Some? && p.minStockLevel.Some? ==> r.isAvailable == p.isAvailable
  {
    var given := ProductRow(p.name, p.description, p.price, p.stockQuantity.GetOr(0), p.isAvailable,
                            p.minStockLevel.GetOr(5));
    var stocked := if p.stockQuantity.None? then given.WithStock(0) else given;
    if p.minStockLevel.None? then stocked.WithMinStockLevel(5) else stocked
  }

  /** `createProduct`: rejects a null product, a blank name and a null or
      negative price; otherwise saves the product with its defaults. */
  method CreateProduct(db: Database, product: Option<ProductInput>) returns (r: Result<ProductEntity>)
    requires db.Valid()
    modifies db`products
    ensures db.Valid()
    ensures CreationError(product).Some? ==>
      r == Err(IllegalArgument(CreationError(product).value)) && db.products == old(db.products)
    ensures CreationError(product).None? ==>
      && r == Ok((old(db.products.nextId), WithDefaults(product.value)))
      && db.products == old(db.products).Insert(r.value.1)
  {
    var invalid := CreationError(product);
    if invalid.Some? {
      return Err(IllegalArgument(invalid.value));
    }
    var row := WithDefaults(product.value);
    var id := db.products.nextId;
    ProductsChanged(db.products, db.users, db.orders, db.payments, db.carts, db.paymentLog, db.products.Insert(row));
    db.CommitProducts(db.products.Insert(row));
    r := Ok((id, row));
  }

  /** The stored product after `updateProduct`: name, description and price
      are always overwritten, even with null; stock and threshold only by
      non-null values, through their setters. */
  function Updated(existing: ProductRow, details: ProductInput): (r: ProductRow)
    ensures r.name == details.name && r.description == details.description && r.price == details.price
    ensures r.stockQuantity == details.stockQuantity.GetOr(existing.stockQuantity)
    ensures r.minStockLevel == details.minStockLevel.GetOr(existing.minStockLevel)
    ensures details.stockQuantity.None? && details.minStockLevel.None? ==> r.isAvailable == existing.isAvailable
    ensures details.stockQuantity.Some? || details.minStockLevel.Some? ==> r.AvailabilityHolds()
  {
    var named := existing.(name := details.name, description := details.description, price := details.price);
    var stocked := if details.stockQuantity.Some? then named.WithStock(details.stockQuantity.value) else named;
    if details.minStockLevel.Some? then stocked.WithMinStockLevel(details.minStockLevel.value) else stocked
  }

  /** Updating twice with the same details is updating once. */
  lemma UpdateIdempotent(existing: ProductRow, details: ProductInput)
    ensures Updated(Updated(existing, details), details) == Updated(existing, details)
  {
  }

  /** `updateProduct`: empty for an unknown id (nothing changes); otherwise the
      stored product, loaded, overwritten and saved. */
  method UpdateProduct(db: Database, id: Id, details: ProductInput) returns (r: Option<ProductEntity>)
    requires db.Valid()
    modifies db`products
    ensures db.Valid()
    ensures id !in old(db.products.rows) ==> r == None && db.products == old(db.products)
    ensures id in old(db.products.rows) ==>
      && r == Some((id, Updated(old(db.products.rows[id]), details)))
      && db.products == old(db.products).Put(id, r.value.1)
  {
    var found := db.products.Get(id);
    if found.None? {
      return None;
    }
    var product := new Product.Load(found.value);
    product.SetName(details.name);
    product.SetDescription(details.description);
    product.SetPrice(details.price);
    if details.stockQuantity.Some? {
      product.SetStockQuantity(details.stockQuantity.value);
    }
    if details.minStockLevel.Some? {
      product.SetMinStockLevel(details.minStockLevel.value);
    }
    var row := product.Row();
    ProductsChanged(db.products, db.users, db.orders, db.payments, db.carts, db.paymentLog, db.products.Put(id, row));
    db.CommitProducts(db.products.Put(id, row));
    r := Some((id, row));
  }

  /** Some cart's join table still refers to the product. */
  predicate InSomeCart(carts: Table<CartRow>, id: Id) {
    exists c :: c in carts.rows && id in carts.rows[c].products
  }

  /** `deleteProduct`: removes the product; an unknown id is ignored. The
      database refuses to delete a product a cart still holds, and then
      nothing changes. */
  method DeleteProduct(db: Database, id: Id) returns (r: Result<()>)
    requires db.Valid()
    modifies db`products
    ensures db.Valid()
    ensures InSomeCart(db.carts, id) <==> r == Err(ProductInCart(id))
    ensures r.Err? ==> db.products == old(db.products)
    ensures r.Ok? ==> db.products == old(db.products).Remove(id)
    ensures r.Ok? ==> id !in db.products.rows && db.products.rows == old(db.products.rows) - {id}
  {
    if exists c :: c in db.carts.rows && id in db.carts.rows[c].products {
      return Err(ProductInCart(id));
    }
    ProductDeleted(db.products, db.users, db.orders, db.payments, db.carts, db.paymentLog, id);
    db.CommitProducts(db.products.Remove(id));
    r := Ok(());
  }

  /** `searchProducts`: every product for a null or blank name; otherwise the
      products whose name the database matches against the trimmed name
      (`matches` stands for the case-insensitive containment query). */
  function SearchProducts(products: Table<ProductRow>, name: Option<string>, matches: (string, string) -> bool)
    : (r: seq<ProductEntity>)
    requires products.Valid()
    ensures NullOrBlank(name) ==> r == GetAllProducts(products)
    ensures !NullOrBlank(name) ==> Distinct(r) && Subsequence(r, products.All())
    ensures !NullOrBlank(name) ==> forall e :: e in r <==>
      e.0 in products.rows && products.rows[e.0] == e.1 && e.1.name.Some? && matches(e.1.name.value, Trim(name.value))
  {
    if NullOrBlank(name) then GetAllProducts(products)
    else
      var key := Trim(name.value);
      Where(products, (e: ProductEntity) => e.1.name.Some? && matches(e.1.name.value, key))
  }

  /** A name search ignores the whitespace around the name. */
  lemma SearchIgnoresPadding(products: Table<ProductRow>, name: string, matches: (string, string) -> bool)
    requires products.Valid() && !IsBlank(name)
    ensures SearchProducts(products, Some(name), matches) == SearchProducts(products, Some(Trim(name)), matches)
  {
    TrimIdempotent(name);
  }

  /** `filterProductsByPrice`: every product when both bounds are null;
      otherwise the products priced within the bounds, inclusive, a missing
      lower bound read as 0 and a missing upper bound as 999999.99. A
      product without a price then never matches. */
  function FilterProductsByPrice(products: Table<ProductRow>, minPrice: Option<Money>, maxPrice: Option<Money>)
    : (r: seq<ProductEntity>)
    requires products.Valid()
    ensures minPrice.None? && maxPrice.None? ==> r == GetAllProducts(products)
    ensures minPrice.Some? || maxPrice.Some? ==> Distinct(r) && Subsequence(r, products.All())
    ensures minPrice.Some? || maxPrice.Some? ==> forall e :: e in r <==>
      && e.0 in products.rows && products.rows[e.0] == e.1 && e.1.price.Some?
      && minPrice.GetOr(0.0) <= e.1.price.value <= maxPrice.GetOr(DefaultMaxPrice)
  {
    if minPrice.None? && maxPrice.None? then GetAllProducts(products)
    else
      var lo, hi := minPrice.GetOr(0.0), maxPrice.GetOr(DefaultMaxPrice);
      Where(products, (e: ProductEntity) => e.1.price.Some? && lo <= e.1.price.value <= hi)
  }

  /** Once any bound is given, the default upper bound caps the result: a
      product dearer than 999999.99 is missed even by a lower bound it
      passes. */
  lemma DefaultMaxCaps(products: Table<ProductRow>, minPrice: Money, e: ProductEntity)
    requires products.Valid() && e.0 in products.rows && products.rows[e.0] == e.1
    requires e.1.price.Some? && e.1.price.value > DefaultMaxPrice && e.1.price.value >= minPrice
    ensures e in GetAllProducts(products)
    ensures e !in FilterProductsByPrice(products, Some(minPrice), None)
  {
  }

  /** `findByIsAvailableTrue`: the products whose flag is set, in store order. */
  function GetAvailableProducts(products: Table<ProductRow>): (r: seq<ProductEntity>)
    requires products.Valid()
    ensures Distinct(r) && Subsequence(r, products.All())
    ensures forall e :: e in r <==> e.0 in products.rows && products.rows[e.0] == e.1 && e.1.isAvailable
  {
    Where(products, (e: ProductEntity) => e.1.isAvailable)
  }

  /** `findByIsAvailableFalse` */
  function GetUnavailableProducts(products: Table<ProductRow>): (r: seq<ProductEntity>)
    requires products.Valid()
    ensures Distinct(r) && Subsequence(r, products.All())
    ensures forall e :: e in r <==> e.0 in products.rows && products.rows[e.0] == e.1 && !e.1.isAvailable
  {
    Where(products, (e: ProductEntity) => !e.1.isAvailable)
  }

  /** When every product's flag agrees with its stock, the flag-based list is
      the stock-based one of the inventory service, element for element. */
  lemma AvailableByFlagIsInStock(products: Table<ProductRow>)
    requires products.Valid()
    requires forall id :: id in products.rows ==> products.rows[id].AvailabilityHolds()
    ensures GetAvailableProducts(products) == InventoryService.GetAvailableProducts(products)
    ensures GetUnavailableProducts(products) == InventoryService.GetOutOfStockProducts(products)
  {
    var all := products.All();
    assert forall e :: e in all ==> e.0 in products.rows && products.rows[e.0] == e.1;
    FilterSame(all, (e: ProductEntity) => e.1.isAvailable, (e: ProductEntity) => e.1.InStock());
    FilterSame(all, (e: ProductEntity) => !e.1.isAvailable, (e: ProductEntity) => !e.1.InStock());
  }

  /** Without that agreement the two lists can differ: a fresh product is
      flagged available with no stock. */
  lemma FreshProductListedAvailable()
    ensures var t := EmptyTable<ProductRow>().Insert(FreshProduct);
      GetAvailableProducts(t) != InventoryService.GetAvailableProducts(t)
  {
    var t := EmptyTable<ProductRow>().Insert(FreshProduct);
    assert t.All()[0] == (0, FreshProduct);
    assert (0, FreshProduct) in GetAvailableProducts(t);
  }

  /** The search test: of "Test Product" and "Laptop Computer", searching
      for "Test" finds only the first, given that the database matches the
      one name and not the other. */
  lemma SearchScenario(products: Table<ProductRow>, a: Id, b: Id, matches: (string, string) -> bool)
    requires products.Valid() && products.rows.Keys == {a, b}
    requires products.rows[a].name == Some("Test Product") && products.rows[b].name == Some("Laptop Computer")
    requires matches("Test Product", "Test") && !matches("Laptop Computer", "Test")
    ensures SearchProducts(products, Some("Test"), matches) == [(a, products.rows[a])]
  {
    assert !IsTrimmable('T') && !IsTrimmable('t');
    assert Trim("Test") == "Test";
    OnlyElement(SearchProducts(products, Some("Test"), matches), (a, products.rows[a]));
  }

  /** The availability test: of a flagged and an unflagged product, only the
      flagged one is listed. */
  lemma AvailableScenario(products: Table<ProductRow>, a: Id, b: Id)
    requires products.Valid() && products.rows.Keys == {a, b}
    requires products.rows[a].isAvailable && !products.rows[b].isAvailable
    ensures GetAvailableProducts(products) == [(a, products.rows[a])]
  {
    OnlyElement(GetAvailableProducts(products), (a, products.rows[a]));
  }

  /** `searchAndFilterProducts`: each null criterion is ignored; a price
      bound excludes products without a price. */
  function SearchAndFilterProducts(products: Table<ProductRow>, name: Option<string>, minPrice: Option<Money>,
                                   maxPrice: Option<Money>, available: Option<bool>,
                                   matches: (string, string) -> bool): (r: seq<ProductEntity>)
    requires products.Valid()
    ensures Distinct(r) && Subsequence(r, products.All())
    ensures forall e :: e in r <==>
      && e.0 in products.rows && products.rows[e.0] == e.1
      && (name.None? || (e.1.name.Some? && matches(e.1.name.value, name.value)))
      && (minPrice.None? || (e.1.price.Some? && e.1.price.value >= minPrice.value))
      && (maxPrice.None? || (e.1.price.Some? && e.1.price.value <= maxPrice.value))
      && (available.None? || e.1.isAvailable == available.value)
  {
    Where(products, (e: ProductEntity) =>
      && (name.None? || (e.1.name.Some? && matches(e.1.name.value, name.value)))
      && (minPrice.None? || (e.1.price.Some? && e.1.price.value >= minPrice.value))
      && (maxPrice.None? || (e.1.price.Some? && e.1.price.value <= maxPrice.value))
      && (available.None? || e.1.isAvailable == available.value))
  }
}
