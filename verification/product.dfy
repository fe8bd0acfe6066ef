/** The Product entity: catalogue fields and the per-product stock ledger
    (stock counter, derived availability flag, low-stock threshold). */
module Products {
  import opened Common

  /** The stored columns of a product (everything but its id). */
  datatype ProductRow = ProductRow(
    name: Option<string>,
    description: Option<string>,
    price: Option<Money>,
    stockQuantity: int,
    isAvailable: bool,
    minStockLevel: int)
  {
    /** `isInStock()` */
    predicate InStock() {
      stockQuantity > 0
    }

    /** `isLowStock()` */
    predicate LowStock() {
      stockQuantity <= minStockLevel
    }

    /** The flag agrees with the counter. Holds after every stock or threshold
        setter, but not for a fresh product nor after `setIsAvailable`. */
    predicate AvailabilityHolds() {
      isAvailable == InStock()
    }

    /** State after `setStockQuantity(q)`. */
    function WithStock(q: int): (r: ProductRow)
      ensures r.stockQuantity == q && r.AvailabilityHolds()
      ensures r.minStockLevel == minStockLevel
      ensures r.name == name && r.description == description && r.price == price
    {
      this.(stockQuantity := q, isAvailable := q > 0)
    }

    /** State after `setMinStockLevel(m)`: availability is recomputed too. */
    function WithMinStockLevel(m: int): (r: ProductRow)
      ensures r.minStockLevel == m && r.AvailabilityHolds()
      ensures r.stockQuantity == stockQuantity
      ensures r.name == name && r.description == description && r.price == price
    {
      this.(minStockLevel := m, isAvailable := stockQuantity > 0)
    }

    /** State after `addStock(q)`. */
    function StockAdded(q: int): (r: ProductRow)
      ensures r.stockQuantity == stockQuantity + q && r.AvailabilityHolds()
      ensures r.minStockLevel == minStockLevel
      ensures r.name == name && r.description == description && r.price == price
    {
      WithStock(stockQuantity + q)
    }

    /** Outcome of `reduceStock(q)`: the new state when it returns true, none
        when it returns false (and then nothing changes). */
    function StockReduced(q: int): (r: Option<ProductRow>)
      ensures r.Some? <==> stockQuantity >= q
      ensures r.Some? ==> r.value.stockQuantity == stockQuantity - q && r.value.AvailabilityHolds()
      ensures r.Some? ==> r.value.minStockLevel == minStockLevel && r.value.price == price
      ensures r.Some? ==> r.value.name == name && r.value.description == description
    {
      if stockQuantity >= q then Some(WithStock(stockQuantity - q)) else None
    }
  }

  /** A product loaded from the table, with its id. */
  type ProductEntity = (Id, ProductRow)

  /** The field initialisers of `new Product()`: stock 0, available, level 5.
      The availability invariant does not hold here. */
  const FreshProduct := ProductRow(None, None, None, 0, true, 5)

  /** A successful reduction followed by adding the same quantity back gives
      the original stock and a consistent flag. */
  lemma ReduceThenAddRestores(r: ProductRow, q: int)
    requires r.stockQuantity >= q
    ensures r.StockReduced(q).Some?
    ensures r.StockReduced(q).value.StockAdded(q) == r.WithStock(r.stockQuantity)
    ensures r.AvailabilityHolds() ==> r.StockReduced(q).value.StockAdded(q) == r
  {
  }

  /** Reducing by exactly the current stock empties it and clears the flag. */
  lemma ReduceAllEmpties(r: ProductRow)
    ensures r.StockReduced(r.stockQuantity) == Some(r.(stockQuantity := 0, isAvailable := false))
  {
  }

  /** In-stock and low-stock are independent of the flag: a product can be
      flagged available while holding no stock. */
  lemma FreshProductBreaksAvailability()
    ensures !FreshProduct.AvailabilityHolds() && FreshProduct.LowStock()
  {
  }

  /** The mutable entity. Services load a row into one of these, call its
      methods and save `Row()` back. */
  class Product {
    var name: Option<string>
    var description: Option<string>
    var price: Option<Money>
    var stockQuantity: int
    var isAvailable: bool
    var minStockLevel: int

    function Row(): ProductRow
      reads this
    {
      ProductRow(name, description, price, stockQuantity, isAvailable, minStockLevel)
    }

    constructor ()
      ensures Row() == FreshProduct
    {
      name, description, price := None, None, None;
      stockQuantity, isAvailable, minStockLevel := 0, true, 5;
    }

    /** The entity as the persistence layer materialises it from a row. */
    constructor Load(r: ProductRow)
      ensures Row() == r
    {
      name, description, price := r.name, r.description, r.price;
      stockQuantity, isAvailable, minStockLevel := r.stockQuantity, r.isAvailable, r.minStockLevel;
    }

    method SetName(n: Option<string>)
      modifies this`name
      ensures Row() == old(Row()).(name := n)
    {
      name := n;
    }

    method SetDescription(d: Option<string>)
      modifies this`description
      ensures Row() == old(Row()).(description := d)
    {
      description := d;
    }

    method SetPrice(p: Option<Money>)
      modifies this`price
      ensures Row() == old(Row()).(price := p)
    {
      price := p;
    }

    /** Overwrites the flag alone; can break `AvailabilityHolds`. */
    method SetIsAvailable(b: bool)
      modifies this`isAvailable
      ensures Row() == old(Row()).(isAvailable := b)
    {
      isAvailable := b;
    }

    method SetStockQuantity(q: int)
      modifies this`stockQuantity, this`isAvailable
      ensures Row() == old(Row()).WithStock(q)
      ensures Row().AvailabilityHolds()
    {
      stockQuantity := q;
      UpdateAvailability();
    }

    method SetMinStockLevel(m: int)
      modifies this`minStockLevel, this`isAvailable
      ensures Row() == old(Row()).WithMinStockLevel(m)
      ensures stockQuantity == old(stockQuantity) && Row().AvailabilityHolds()
    {
      minStockLevel := m;
      UpdateAvailability();
    }

    method AddStock(q: int)
      modifies this`stockQuantity, this`isAvailable
      ensures stockQuantity == old(stockQuantity) + q && Row().AvailabilityHolds()
      ensures Row() == old(Row()).StockAdded(q)
    {
      stockQuantity := stockQuantity + q;
      UpdateAvailability();
    }

    /** Check-then-decrement: either takes exactly `q` or changes nothing. */
    method ReduceStock(q: int) returns (ok: bool)
      modifies this`stockQuantity, this`isAvailable
      ensures ok <==> old(stockQuantity) >= q
      ensures ok ==> stockQuantity == old(stockQuantity) - q && Row().AvailabilityHolds()
      ensures !ok ==> Row() == old(Row())
      ensures Row() == old(Row().StockReduced(q)).GetOr(old(Row()))
    {
      if stockQuantity >= q {
        stockQuantity := stockQuantity - q;
        UpdateAvailability();
        return true;
      }
      return false;
    }

    /** A query: it reads the entity and changes nothing. */
    function IsInStock(): (b: bool)
      reads this
      ensures b <==> stockQuantity > 0
    {
      Row().InStock()
    }

    function IsLowStock(): (b: bool)
      reads this
      ensures b <==> stockQuantity <= minStockLevel
    {
      Row().LowStock()
    }

    method UpdateAvailability()
      modifies this`isAvailable
      ensures Row() == old(Row()).(isAvailable := stockQuantity > 0)
    {
      isAvailable := stockQuantity > 0;
    }
  }

  /** A product as a request body deserialises it (the argument of
      `createProduct` and `updateProduct`): the stock and threshold may be
      null, which the entity's stored columns never are. */
  datatype ProductInput = ProductInput(
    name: Option<string>,
    description: Option<string>,
    price: Option<Money>,
    stockQuantity: Option<int>,
    isAvailable: bool,
    minStockLevel: Option<int>)
}
