/** OrderService: placing an order for a set of products at their current
    prices, status updates, and the order queries. */
module OrderService {
  import opened Common
  import opened Tables
  import opened BatchLookup
  import opened Products
  import opened Entities
  import opened Store

  type OrderEntity = (Id, OrderRow)

  /** What one product adds to an order total (a null price is reported
      separately, as the error it raises). */
  function PriceOrZero(e: ProductEntity): Money {
    e.1.price.GetOr(0.0)
  }

  /** Some requested product has no price. */
  predicate HasNullPrice(ids: set<Id>, catalog: map<Id, ProductRow>) {
    exists id :: id in ids && id in catalog && catalog[id].price.None?
  }

  /** The exact total of an order for `ids` at the catalogue's prices. */
  ghost function OrderTotal(ids: set<Id>, catalog: map<Id, ProductRow>): Money {
    Sum(FindAllById(ids, catalog), PriceOrZero)
  }

  /** Ordering one more product adds exactly its price to the total. */
  lemma OrderTotalAdd(ids: set<Id>, catalog: map<Id, ProductRow>, id: Id)
    requires id in catalog && id !in ids && catalog[id].price.Some?
    ensures OrderTotal(ids + {id}, catalog) == OrderTotal(ids, catalog) + catalog[id].price.value
  {
    assert FindAllById(ids + {id}, catalog) == FindAllById(ids, catalog) + {(id, catalog[id])};
    SumInsert(FindAllById(ids, catalog), PriceOrZero, (id, catalog[id]));
  }

  /** `stream().map(Product::getPrice).reduce(BigDecimal.ZERO, BigDecimal::add)`:
      the exact sum, or the NullPointerException a null price raises. */
  method TotalPrice(found: set<ProductEntity>) returns (r: Result<Money>)
    ensures r.Err? <==> exists e :: e in found && e.1.price.None?
    ensures r.Err? ==> r.error == NullPrice
    ensures r.Ok? ==> r.value == Sum(found, PriceOrZero)
  {
    var total := 0.0;
    var rest := found;
    while rest != {}
      invariant rest <= found
      invariant total + Sum(rest, PriceOrZero) == Sum(found, PriceOrZero)
      invariant forall e :: e in found - rest ==> e.1.price.Some?
      decreases rest
    {
      var e :| e in rest;
      if e.1.price.None? {
        return Err(NullPrice);
      }
      SumPick(rest, PriceOrZero, e);
      total := total + e.1.price.value;
      rest := rest - {e};
    }
    return Ok(total);
  }

  /** `createOrder`. The checks run in this order: null user id, null or
      empty product set, unknown user, a product that does not exist, a null
      price; only when all pass is an order saved, in the initial status,
      with no tracking number and the exact total of its products. */
  method CreateOrder(db: Database, userId: Option<Id>, productIds: Option<set<Id>>, now: Time)
    returns (r: Result<OrderEntity>)
    requires db.Valid()
    modifies db`orders
    ensures db.Valid()
    ensures r.Err? ==> db.orders == old(db.orders)
    ensures userId.None? ==> r == Err(IllegalArgument(NullUserId))
    ensures userId.Some? && (productIds.None? || productIds.value == {}) ==>
      r == Err(IllegalArgument(EmptyProductIds))
    ensures userId.Some? && productIds.Some? && productIds.value != {} ==>
      var u, ids := userId.value, productIds.value;
      && (u !in db.users.rows ==> r == Err(UserNotFound(u)))
      && (u in db.users.rows && !(ids <= db.products.rows.Keys) ==> r == Err(ProductsNotFound))
      && (u in db.users.rows && ids <= db.products.rows.Keys && HasNullPrice(ids, db.products.rows) ==>
            r == Err(NullPrice))
      && (u in db.users.rows && ids <= db.products.rows.Keys && !HasNullPrice(ids, db.products.rows) ==>
            && r == Ok((old(db.orders.nextId),
                        OrderRow(u, ids, OrderTotal(ids, db.products.rows), now, InitialOrderStatus, None)))
            && db.orders == old(db.orders).Insert(r.value.1))
  {
    if userId.None? {
      return Err(IllegalArgument(NullUserId));
    }
    if productIds.None? || productIds.value == {} {
      return Err(IllegalArgument(EmptyProductIds));
    }
    var u, ids := userId.value, productIds.value;
    if db.users.Get(u).None? {
      return Err(UserNotFound(u));
    }
    var found := FindAllById(ids, db.products.rows);
    FindAllByIdComplete(ids, db.products.rows);
    if |found| != |ids| {
      return Err(ProductsNotFound);
    }
    var total := TotalPrice(found);
    if total.Err? {
      ghost var e :| e in found && e.1.price.None?;
      assert e.0 in ids && db.products.rows[e.0].price.None?;
      return Err(total.error);
    }
    assert !HasNullPrice(ids, db.products.rows) by {
      forall id | id in ids && id in db.products.rows
        ensures db.products.rows[id].price.Some?
      {
        assert (id, db.products.rows[id]) in found;
      }
    }
    var order := OrderRow(u, ids, total.value, now, InitialOrderStatus, None);
    r := Ok((db.orders.nextId, order));
    OrdersChanged(db.products, db.users, db.orders, db.payments, db.carts, db.paymentLog, db.orders.Insert(order));
    db.CommitOrders(db.orders.Insert(order));
  }

  /** `getOrdersForUser`: fails for an unknown user, otherwise lists exactly
      that user's orders. */
  function GetOrdersForUser(users: Table<UserRow>, orders: Table<OrderRow>, userId: Id)
    : (r: Result<seq<OrderEntity>>)
    requires orders.Valid()
    ensures userId !in users.rows <==> r == Err(UserNotFound(userId))
    ensures r.Ok? ==> Distinct(r.value) && Subsequence(r.value, orders.All())
    ensures r.Ok? ==> forall e :: e in r.value <==> e.0 in orders.rows && orders.rows[e.0] == e.1 && e.1.user == userId
  {
    if userId !in users.rows then Err(UserNotFound(userId))
    else Ok(Where(orders, (e: OrderEntity) => e.1.user == userId))
  }

  /** The order after a status update: the status is replaced; the tracking
      number only by a non-null, non-blank one, which is stored untrimmed. */
  function WithStatus(row: OrderRow, status: OrderStatus, tracking: Option<string>): (r: OrderRow)
    ensures r.status == status
    ensures NullOrBlank(tracking) ==> r.trackingNumber == row.trackingNumber
    ensures !NullOrBlank(tracking) ==> r.trackingNumber == tracking
    ensures r.user == row.user && r.products == row.products && r.totalAmount == row.totalAmount
    ensures r.orderDate == row.orderDate
  {
    if NullOrBlank(tracking) then row.(status := status)
    else row.(status := status, trackingNumber := tracking)
  }

  /** A whitespace-only tracking number is ignored as a null one is: the
      three-argument update then acts as the two-argument one. */
  lemma BlankTrackingIgnored(row: OrderRow, status: OrderStatus, tracking: string)
    requires forall i :: 0 <= i < |tracking| ==> IsTrimmable(tracking[i])
    ensures WithStatus(row, status, Some(tracking)) == WithStatus(row, status, None)
  {
    BlankIffAllTrimmable(tracking);
  }

  /** `updateOrderStatus(orderId, newStatus)` */
  method UpdateOrderStatus(db: Database, orderId: Id, newStatus: OrderStatus) returns (r: Result<OrderEntity>)
    requires db.Valid()
    modifies db`orders
    ensures db.Valid()
    ensures orderId !in old(db.orders.rows) ==> r == Err(OrderNotFound(orderId)) && db.orders == old(db.orders)
    ensures orderId in old(db.orders.rows) ==>
      && r == Ok((orderId, WithStatus(old(db.orders.rows[orderId]), newStatus, None)))
      && db.orders == old(db.orders).Put(orderId, r.value.1)
  {
    r := UpdateOrderStatusAndTracking(db, orderId, newStatus, None);
  }

  /** `updateOrderStatus(orderId, newStatus, trackingNumber)` */
  method UpdateOrderStatusAndTracking(db: Database, orderId: Id, newStatus: OrderStatus, trackingNumber: Option<string>)
    returns (r: Result<OrderEntity>)
    requires db.Valid()
    modifies db`orders
    ensures db.Valid()
    ensures orderId !in old(db.orders.rows) ==> r == Err(OrderNotFound(orderId)) && db.orders == old(db.orders)
    ensures orderId in old(db.orders.rows) ==>
      && r == Ok((orderId, WithStatus(old(db.orders.rows[orderId]), newStatus, trackingNumber)))
      && db.orders == old(db.orders).Put(orderId, r.value.1)
  {
    var found := db.orders.Get(orderId);
    if found.None? {
      return Err(OrderNotFound(orderId));
    }
    var order := WithStatus(found.value, newStatus, trackingNumber);
    db.CommitOrders(db.orders.Put(orderId, order));
    return Ok((orderId, order));
  }

  /** `getOrdersByStatus`: exactly the orders in `status`, in store order. */
  function GetOrdersByStatus(orders: Table<OrderRow>, status: OrderStatus): (r: seq<OrderEntity>)
    requires orders.Valid()
    ensures Distinct(r) && Subsequence(r, orders.All())
    ensures forall e :: e in r <==> e.0 in orders.rows && orders.rows[e.0] == e.1 && e.1.status == status
  {
    Where(orders, (e: OrderEntity) => e.1.status == status)
  }

  /** Every order is listed under exactly one status. */
  lemma StatusesPartitionOrders(orders: Table<OrderRow>, s: OrderStatus, t: OrderStatus, e: OrderEntity)
    requires orders.Valid() && e.0 in orders.rows && orders.rows[e.0] == e.1
    ensures e in GetOrdersByStatus(orders, e.1.status)
    ensures s != t ==> !(e in GetOrdersByStatus(orders, s) && e in GetOrdersByStatus(orders, t))
  {
  }

  /** `getOrderById` */
  function GetOrderById(orders: Table<OrderRow>, orderId: Id): (r: Option<OrderRow>)
    ensures r.Some? <==> orderId in orders.rows
    ensures r.Some? ==> r.value == orders.rows[orderId]
  {
    orders.Get(orderId)
  }
}
