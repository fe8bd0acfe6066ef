/** CartService: one cart per user, created on first access; adding,
    removing and clearing go through the Cart entity, whose total is then
    saved with the cart. Every call is one transaction: a failure leaves the
    cart table as it was, including a cart the call itself created. */
module CartService {
  import opened Common
  import opened Tables
  import opened Products
  import opened Carts
  import opened Store

  type CartEntity = (Id, CartRow)

  predicate OwnedBy(userId: Id, e: CartEntity) {
    e.1.user == userId
  }

  /** `findByUserId` (and `findByUser`): the user's cart, if any. A read: it
      never creates one. With at most one cart per user it is that one. */
  function GetCartByUserId(carts: Table<CartRow>, userId: Id): (r: Option<CartEntity>)
    requires carts.Valid() && AtMostOneCartPerUser(carts)
    ensures r.None? <==> forall c :: c in carts.rows ==> carts.rows[c].user != userId
    ensures r.Some? ==> r.value.0 in carts.rows && carts.rows[r.value.0] == r.value.1 && r.value.1.user == userId
    ensures r.Some? ==> forall c :: c in carts.rows && carts.rows[c].user == userId ==> c == r.value.0
  {
    var r := FindFirst(carts.All(), e => OwnedBy(userId, e));
    assert r.None? <==> forall c :: c in carts.rows ==> carts.rows[c].user != userId by {
      if r.None? {
        forall c | c in carts.rows ensures carts.rows[c].user != userId {
          assert (c, carts.rows[c]) in carts.All();
        }
      }
    }
    r
  }

  /** The row `new Cart()` followed by `setUser` saves. */
  function NewCartRow(userId: Id, now: Time): CartRow {
    CartRow(userId, {}, 0.0, now)
  }

  /** What `getOrCreateCart` does for a known user: the table afterwards and
      the cart it returns. */
  function EnsureCart(carts: Table<CartRow>, userId: Id, now: Time): (r: (Table<CartRow>, CartEntity))
    requires carts.Valid() && AtMostOneCartPerUser(carts)
    ensures r.0.Valid() && AtMostOneCartPerUser(r.0)
    ensures GetCartByUserId(r.0, userId) == Some(r.1)
    ensures carts.rows.Keys <= r.0.rows.Keys
    ensures r.1.0 in carts.rows ==> r.1.1 == carts.rows[r.1.0]
    ensures r.1.0 !in carts.rows ==> r.1.1.products == {}
    ensures forall c :: c in carts.rows ==> r.0.rows[c] == carts.rows[c]
    ensures GetCartByUserId(carts, userId).Some? ==> r.0 == carts
    ensures GetCartByUserId(carts, userId).None? ==>
      r.1 == (carts.nextId, NewCartRow(userId, now)) && r.0 == carts.Insert(r.1.1)
  {
    match GetCartByUserId(carts, userId)
    case Some(e) => (carts, e)
    case None =>
      var row := NewCartRow(userId, now);
      CartAdded(carts, row);
      (carts.Insert(row), (carts.nextId, row))
  }

  lemma CartAdded(carts: Table<CartRow>, row: CartRow)
    requires carts.Valid() && AtMostOneCartPerUser(carts)
    requires forall c :: c in carts.rows ==> carts.rows[c].user != row.user
    ensures AtMostOneCartPerUser(carts.Insert(row))
  {
    var t := carts.Insert(row);
    forall c, d | c in t.rows && d in t.rows && t.rows[c].user == t.rows[d].user
      ensures c == d
    {
      if c != carts.nextId && d != carts.nextId {
        assert carts.rows[c].user == carts.rows[d].user;
      }
    }
  }

  /** A second access finds the cart the first one created: it returns the
      same cart and changes nothing. */
  lemma EnsureCartIdempotent(carts: Table<CartRow>, userId: Id, now: Time, later: Time)
    requires carts.Valid() && AtMostOneCartPerUser(carts)
    ensures EnsureCart(EnsureCart(carts, userId, now).0, userId, later) == EnsureCart(carts, userId, now)
  {
  }

  /** Saving a cart under its own owner, with products that exist, keeps the
      cart constraints. */
  lemma CartSaved(carts: Table<CartRow>, products: Table<ProductRow>, id: Id, row: CartRow)
    requires carts.Valid() && AtMostOneCartPerUser(carts) && CartsReferenceProducts(carts, products)
    requires id in carts.rows && row.user == carts.rows[id].user && row.products <= products.rows.Keys
    ensures AtMostOneCartPerUser(carts.Put(id, row)) && CartsReferenceProducts(carts.Put(id, row), products)
  {
    var t := carts.Put(id, row);
    forall c, d | c in t.rows && d in t.rows && t.rows[c].user == t.rows[d].user
      ensures c == d
    {
      assert carts.rows[c].user == carts.rows[d].user;
    }
  }

  /** `cartRepository.save` of a stored cart. */
  method Save(db: Database, id: Id, row: CartRow)
    requires db.Valid() && id in db.carts.rows
    requires row.user == db.carts.rows[id].user && row.products <= db.products.rows.Keys
    modifies db`carts
    ensures db.Valid() && db.carts == old(db.carts).Put(id, row)
  {
    CartSaved(db.carts, db.products, id, row);
    CartsChanged(db.products, db.users, db.orders, db.payments, db.carts, db.paymentLog, db.carts.Put(id, row));
    db.CommitCarts(db.carts.Put(id, row));
  }

  /** `getOrCreateCart`: fails for an unknown user; otherwise the user's cart,
      created empty and saved if there was none. */
  method GetOrCreateCart(db: Database, userId: Id, now: Time) returns (r: Result<CartEntity>)
    requires db.Valid()
    modifies db`carts
    ensures db.Valid()
    ensures userId !in db.users.rows ==> r == Err(UserNotFound(userId)) && db.carts == old(db.carts)
    ensures userId in db.users.rows ==>
      r == Ok(EnsureCart(old(db.carts), userId, now).1) && db.carts == EnsureCart(old(db.carts), userId, now).0
  {
    if db.users.Get(userId).None? {
      return Err(UserNotFound(userId));
    }
    var existing := GetCartByUserId(db.carts, userId);
    if existing.Some? {
      return Ok(existing.value);
    }
    var cart := new Cart(now);
    cart.SetUser(userId);
    assert ItemIds({}) == {};
    var row := cart.Row();
    var id := db.carts.nextId;
    CartAdded(db.carts, row);
    CartsChanged(db.products, db.users, db.orders, db.payments, db.carts, db.paymentLog, db.carts.Insert(row));
    db.CommitCarts(db.carts.Insert(row));
    r := Ok((id, row));
  }

  /** The cart after adding a product: the product joins the set (a second
      add changes nothing) and the total is recomputed at current prices. */
  ghost function Added(row: CartRow, productId: Id, catalog: map<Id, ProductRow>, now: Time): (r: CartRow)
    requires row.products <= catalog.Keys && productId in catalog
    ensures r.user == row.user && r.lastUpdated == now
    ensures productId in r.products && r.products - {productId} == row.products - {productId}
    ensures r.products <= catalog.Keys && r.totalAmount == CatalogTotal(r.products, catalog)
  {
    CartRow(row.user, row.products + {productId}, CatalogTotal(row.products + {productId}, catalog), now)
  }

  /** The cart after removing a product: the product leaves the set (if it
      was there) and the total is recomputed at current prices. */
  ghost function Removed(row: CartRow, productId: Id, catalog: map<Id, ProductRow>, now: Time): (r: CartRow)
    requires row.products <= catalog.Keys
    ensures r.user == row.user && r.lastUpdated == now
    ensures productId !in r.products && r.products + {productId} == row.products + {productId}
    ensures r.products <= catalog.Keys && r.totalAmount == CatalogTotal(r.products, catalog)
  {
    CartRow(row.user, row.products - {productId}, CatalogTotal(row.products - {productId}, catalog), now)
  }

  /** Adding a product already in the cart only refreshes the total and the
      time; adding a new one raises the total by its price. Removing a
      product the cart lacks leaves the set as it was. */
  lemma AddRemoveEffect(row: CartRow, productId: Id, catalog: map<Id, ProductRow>, now: Time)
    requires row.products <= catalog.Keys && productId in catalog
    ensures productId in row.products ==>
      Added(row, productId, catalog, now) == row.(totalAmount := CatalogTotal(row.products, catalog), lastUpdated := now)
    ensures productId !in row.products ==>
      Added(row, productId, catalog, now).totalAmount ==
        CatalogTotal(row.products, catalog) + ItemPrice(Some((productId, catalog[productId])))
    ensures productId !in row.products ==>
      Removed(row, productId, catalog, now) == row.(totalAmount := CatalogTotal(row.products, catalog), lastUpdated := now)
    ensures productId in row.products ==>
      Removed(row, productId, catalog, now).totalAmount ==
        CatalogTotal(row.products, catalog) - ItemPrice(Some((productId, catalog[productId])))
  {
    var item := Some((productId, catalog[productId]));
    ItemsRoundTrip(row.products, catalog, productId);
    TotalAfterAdd(Items(row.products, catalog), item);
    TotalAfterRemove(Items(row.products, catalog), item);
    if productId in row.products {
      assert row.products + {productId} == row.products;
    } else {
      assert row.products - {productId} == row.products;
    }
  }

  /** The entity loaded from `row`, with the product added or removed, saves
      back as `Added` or `Removed`. */
  lemma LoadedAdd(row: CartRow, productId: Id, catalog: map<Id, ProductRow>, now: Time)
    requires row.products <= catalog.Keys && productId in catalog
    ensures var s := Items(row.products, catalog) + {Some((productId, catalog[productId]))};
      CartRow(row.user, ItemIds(s), Total(Some(s)), now) == Added(row, productId, catalog, now)
  {
    ItemsRoundTrip(row.products, catalog, productId);
  }

  lemma LoadedRemove(row: CartRow, productId: Id, catalog: map<Id, ProductRow>, now: Time)
    requires row.products <= catalog.Keys && productId in catalog
    ensures var s := Items(row.products, catalog) - {Some((productId, catalog[productId]))};
      CartRow(row.user, ItemIds(s), Total(Some(s)), now) == Removed(row, productId, catalog, now)
  {
    ItemsRoundTrip(row.products, catalog, productId);
  }

  /** The entity is loaded from its row, changed, and its row taken back. */
  method LoadAndAdd(row: CartRow, catalog: map<Id, ProductRow>, productId: Id, now: Time) returns (updated: CartRow)
    requires row.products <= catalog.Keys && productId in catalog
    ensures updated == Added(row, productId, catalog, now)
  {
    var cart := new Cart.Load(row, catalog);
    cart.AddProduct(Some((productId, catalog[productId])), now);
    LoadedAdd(row, productId, catalog, now);
    updated := cart.Row();
  }

  method LoadAndRemove(row: CartRow, catalog: map<Id, ProductRow>, productId: Id, now: Time) returns (updated: CartRow)
    requires row.products <= catalog.Keys && productId in catalog
    ensures updated == Removed(row, productId, catalog, now)
  {
    var cart := new Cart.Load(row, catalog);
    cart.RemoveProduct(Some((productId, catalog[productId])), now);
    LoadedRemove(row, productId, catalog, now);
    updated := cart.Row();
  }

  method LoadAndClear(row: CartRow, catalog: map<Id, ProductRow>, now: Time) returns (updated: CartRow)
    requires row.products <= catalog.Keys
    ensures updated == CartRow(row.user, {}, 0.0, now)
  {
    var cart := new Cart.Load(row, catalog);
    cart.ClearCart(now);
    assert ItemIds({}) == {};
    updated := cart.Row();
  }

  /** `addProductToCart`: the user's cart (created if need be) with the
      product added, saved. An unknown product rolls the whole call back. */
  method AddProductToCart(db: Database, userId: Id, productId: Id, now: Time) returns (r: Result<CartEntity>)
    requires db.Valid()
    modifies db`carts
    ensures db.Valid()
    ensures r.Err? ==> db.carts == old(db.carts)
    ensures userId !in db.users.rows ==> r == Err(UserNotFound(userId))
    ensures userId in db.users.rows && productId !in db.products.rows ==> r == Err(ProductNotFound(productId))
    ensures userId in db.users.rows && productId in db.products.rows ==>
      var e := EnsureCart(old(db.carts), userId, now).1;
      && e.1.products <= db.products.rows.Keys
      && r == Ok((e.0, Added(e.1, productId, db.products.rows, now)))
      && db.carts == EnsureCart(old(db.carts), userId, now).0.Put(e.0, r.value.1)
  {
    var saved := db.carts;
    var got := GetOrCreateCart(db, userId, now);
    if got.Err? {
      return got;
    }
    var id, row := got.value.0, got.value.1;
    var product := db.products.Get(productId);
    if product.None? {
      db.CommitCarts(saved);
      return Err(ProductNotFound(productId));
    }
    var updated := LoadAndAdd(row, db.products.rows, productId, now);
    Save(db, id, updated);
    r := Ok((id, updated));
  }

  /** `removeProductFromCart`: the user's cart (created if need be) without
      the product, saved. An unknown product rolls the whole call back. */
  method RemoveProductFromCart(db: Database, userId: Id, productId: Id, now: Time) returns (r: Result<CartEntity>)
    requires db.Valid()
    modifies db`carts
    ensures db.Valid()
    ensures r.Err? ==> db.carts == old(db.carts)
    ensures userId !in db.users.rows ==> r == Err(UserNotFound(userId))
    ensures userId in db.users.rows && productId !in db.products.rows ==> r == Err(ProductNotFound(productId))
    ensures userId in db.users.rows && productId in db.products.rows ==>
      var e := EnsureCart(old(db.carts), userId, now).1;
      && e.1.products <= db.products.rows.Keys
      && r == Ok((e.0, Removed(e.1, productId, db.products.rows, now)))
      && db.carts == EnsureCart(old(db.carts), userId, now).0.Put(e.0, r.value.1)
  {
    var saved := db.carts;
    var got := GetOrCreateCart(db, userId, now);
    if got.Err? {
      return got;
    }
    var id, row := got.value.0, got.value.1;
    var product := db.products.Get(productId);
    if product.None? {
      db.CommitCarts(saved);
      return Err(ProductNotFound(productId));
    }
    var updated := LoadAndRemove(row, db.products.rows, productId, now);
    Save(db, id, updated);
    r := Ok((id, updated));
  }

  /** `clearCart`: the user's cart (created if need be), emptied with total
      zero, saved. */
  method ClearCart(db: Database, userId: Id, now: Time) returns (r: Result<CartEntity>)
    requires db.Valid()
    modifies db`carts
    ensures db.Valid()
    ensures userId !in db.users.rows ==> r == Err(UserNotFound(userId)) && db.carts == old(db.carts)
    ensures userId in db.users.rows ==>
      var e := EnsureCart(old(db.carts), userId, now).1;
      && r == Ok((e.0, CartRow(userId, {}, 0.0, now)))
      && db.carts == EnsureCart(old(db.carts), userId, now).0.Put(e.0, r.value.1)
  {
    var got := GetOrCreateCart(db, userId, now);
    if got.Err? {
      return got;
    }
    var id, row := got.value.0, got.value.1;
    var updated := LoadAndClear(row, db.products.rows, now);
    Save(db, id, updated);
    r := Ok((id, updated));
  }
}
