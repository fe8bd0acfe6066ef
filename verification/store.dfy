/** The database behind the repositories: one table per entity, and the
    cross-table constraints every service call preserves. */
module Store {
  import opened Common
  import opened Tables
  import opened Products
  import opened Carts
  import opened Entities

  /** A payment refers to an existing order (a foreign key). */
  ghost predicate PaymentsReferenceOrders(payments: Table<PaymentRow>, orders: Table<OrderRow>) {
    forall p :: p in payments.rows ==> payments.rows[p].orderId in orders.rows
  }

  /** No two payments belong to the same order. */
  ghost predicate AtMostOnePaymentPerOrder(payments: Table<PaymentRow>) {
    forall p, q :: p in payments.rows && q in payments.rows && payments.rows[p].orderId == payments.rows[q].orderId ==> p == q
  }

  /** `log[p]` lists every status payment `p` was saved with, in order; the
      last one is its current status. */
  ghost predicate HistoriesFollowStateMachine(payments: Table<PaymentRow>, log: map<Id, seq<PaymentStatus>>) {
    && log.Keys == payments.rows.Keys
    && forall p :: p in log ==> EndsAt(log[p], payments.rows[p].status)
  }

  /** No two carts belong to the same user. */
  ghost predicate AtMostOneCartPerUser(carts: Table<CartRow>) {
    forall c, d :: c in carts.rows && d in carts.rows && carts.rows[c].user == carts.rows[d].user ==> c == d
  }

  /** A cart's join table refers to existing products (a foreign key). */
  ghost predicate CartsReferenceProducts(carts: Table<CartRow>, products: Table<ProductRow>) {
    forall c :: c in carts.rows ==> carts.rows[c].products <= products.rows.Keys
  }

  /** The constraints the database keeps between transactions. */
  ghost predicate Consistent(products: Table<ProductRow>, users: Table<UserRow>, orders: Table<OrderRow>,
                             payments: Table<PaymentRow>, carts: Table<CartRow>, log: map<Id, seq<PaymentStatus>>)
  {
    && products.Valid() && users.Valid() && orders.Valid() && payments.Valid() && carts.Valid()
    && PaymentsReferenceOrders(payments, orders)
    && AtMostOnePaymentPerOrder(payments)
    && HistoriesFollowStateMachine(payments, log)
    && AtMostOneCartPerUser(carts)
    && CartsReferenceProducts(carts, products)
  }

  /** Saving products keeps the constraints, as long as none disappears. */
  lemma ProductsChanged(products: Table<ProductRow>, users: Table<UserRow>, orders: Table<OrderRow>,
                        payments: Table<PaymentRow>, carts: Table<CartRow>, log: map<Id, seq<PaymentStatus>>,
                        products': Table<ProductRow>)
    requires Consistent(products, users, orders, payments, carts, log)
    requires products'.Valid() && products.rows.Keys <= products'.rows.Keys
    ensures Consistent(products', users, orders, payments, carts, log)
  {
  }

  /** Deleting a product no cart holds keeps the constraints. */
  lemma ProductDeleted(products: Table<ProductRow>, users: Table<UserRow>, orders: Table<OrderRow>,
                       payments: Table<PaymentRow>, carts: Table<CartRow>, log: map<Id, seq<PaymentStatus>>,
                       id: Id)
    requires Consistent(products, users, orders, payments, carts, log)
    requires forall c :: c in carts.rows ==> id !in carts.rows[c].products
    ensures Consistent(products.Remove(id), users, orders, payments, carts, log)
  {
  }

  lemma UsersChanged(products: Table<ProductRow>, users: Table<UserRow>, orders: Table<OrderRow>,
                     payments: Table<PaymentRow>, carts: Table<CartRow>, log: map<Id, seq<PaymentStatus>>,
                     users': Table<UserRow>)
    requires Consistent(products, users, orders, payments, carts, log)
    requires users'.Valid()
    ensures Consistent(products, users', orders, payments, carts, log)
  {
  }

  /** Saving orders keeps the constraints, as long as none disappears. */
  lemma OrdersChanged(products: Table<ProductRow>, users: Table<UserRow>, orders: Table<OrderRow>,
                      payments: Table<PaymentRow>, carts: Table<CartRow>, log: map<Id, seq<PaymentStatus>>,
                      orders': Table<OrderRow>)
    requires Consistent(products, users, orders, payments, carts, log)
    requires orders'.Valid() && orders.rows.Keys <= orders'.rows.Keys
    ensures Consistent(products, users, orders', payments, carts, log)
  {
  }

  lemma CartsChanged(products: Table<ProductRow>, users: Table<UserRow>, orders: Table<OrderRow>,
                     payments: Table<PaymentRow>, carts: Table<CartRow>, log: map<Id, seq<PaymentStatus>>,
                     carts': Table<CartRow>)
    requires Consistent(products, users, orders, payments, carts, log)
    requires carts'.Valid() && AtMostOneCartPerUser(carts') && CartsReferenceProducts(carts', products)
    ensures Consistent(products, users, orders, payments, carts', log)
  {
  }

  /** Saving a new PENDING payment for an order that has none keeps the
      constraints, its history starting at PENDING. */
  lemma PaymentCreated(products: Table<ProductRow>, users: Table<UserRow>, orders: Table<OrderRow>,
                       payments: Table<PaymentRow>, carts: Table<CartRow>, log: map<Id, seq<PaymentStatus>>,
                       row: PaymentRow)
    requires Consistent(products, users, orders, payments, carts, log)
    requires row.orderId in orders.rows && row.status == Pending
    requires forall p :: p in payments.rows ==> payments.rows[p].orderId != row.orderId
    ensures Consistent(products, users, orders, payments.Insert(row), carts, log[payments.nextId := [Pending]])
  {
    NewOrderPaid(payments, row);
    HistoryStarted(payments, log, row);
  }

  lemma NewOrderPaid(payments: Table<PaymentRow>, row: PaymentRow)
    requires payments.Valid() && AtMostOnePaymentPerOrder(payments)
    requires forall p :: p in payments.rows ==> payments.rows[p].orderId != row.orderId
    ensures AtMostOnePaymentPerOrder(payments.Insert(row))
  {
    var t := payments.Insert(row);
    forall p, q | p in t.rows && q in t.rows && t.rows[p].orderId == t.rows[q].orderId
      ensures p == q
    {
      if p != payments.nextId && q != payments.nextId {
        assert payments.rows[p].orderId == payments.rows[q].orderId;
      }
    }
  }

  lemma HistoryStarted(payments: Table<PaymentRow>, log: map<Id, seq<PaymentStatus>>, row: PaymentRow)
    requires payments.Valid() && HistoriesFollowStateMachine(payments, log) && row.status == Pending
    ensures HistoriesFollowStateMachine(payments.Insert(row), log[payments.nextId := [Pending]])
  {
    var t, l := payments.Insert(row), log[payments.nextId := [Pending]];
    forall p | p in l ensures EndsAt(l[p], t.rows[p].status) {
      if p != payments.nextId {
        assert l[p] == log[p] && t.rows[p] == payments.rows[p];
      }
    }
  }

  /** Saving a payment under its own order, with a history the state
      machine allows that ends at its new status, keeps the constraints. */
  lemma PaymentSaved(products: Table<ProductRow>, users: Table<UserRow>, orders: Table<OrderRow>,
                     payments: Table<PaymentRow>, carts: Table<CartRow>, log: map<Id, seq<PaymentStatus>>,
                     id: Id, row: PaymentRow, h: seq<PaymentStatus>)
    requires Consistent(products, users, orders, payments, carts, log)
    requires id in payments.rows && row.orderId == payments.rows[id].orderId
    requires EndsAt(h, row.status)
    ensures Consistent(products, users, orders, payments.Put(id, row), carts, log[id := h])
  {
    SameOrdersKept(payments, id, row);
    HistoriesKept(payments, log, id, row, h);
  }

  lemma SameOrdersKept(payments: Table<PaymentRow>, id: Id, row: PaymentRow)
    requires payments.Valid() && AtMostOnePaymentPerOrder(payments)
    requires id in payments.rows && row.orderId == payments.rows[id].orderId
    ensures AtMostOnePaymentPerOrder(payments.Put(id, row))
  {
    var t := payments.Put(id, row);
    forall p, q | p in t.rows && q in t.rows && t.rows[p].orderId == t.rows[q].orderId
      ensures p == q
    {
      assert payments.rows[p].orderId == payments.rows[q].orderId;
    }
  }

  lemma HistoriesKept(payments: Table<PaymentRow>, log: map<Id, seq<PaymentStatus>>,
                      id: Id, row: PaymentRow, h: seq<PaymentStatus>)
    requires payments.Valid() && HistoriesFollowStateMachine(payments, log)
    requires id in payments.rows && EndsAt(h, row.status)
    ensures HistoriesFollowStateMachine(payments.Put(id, row), log[id := h])
  {
    var t, l := payments.Put(id, row), log[id := h];
    forall p | p in l ensures EndsAt(l[p], t.rows[p].status) {
      if p != id {
        assert l[p] == log[p] && t.rows[p] == payments.rows[p];
      }
    }
  }

  class Database {
    var products: Table<ProductRow>
    var users: Table<UserRow>
    var orders: Table<OrderRow>
    var payments: Table<PaymentRow>
    var carts: Table<CartRow>
    /** Every status each payment has been saved with. */
    ghost var paymentLog: map<Id, seq<PaymentStatus>>

    ghost predicate Valid()
      reads this
    {
      Consistent(products, users, orders, payments, carts, paymentLog)
    }

    /** Stores a new product table. */
    method CommitProducts(products': Table<ProductRow>)
      requires Consistent(products', users, orders, payments, carts, paymentLog)
      modifies this`products
      ensures Valid() && products == products'
    {
      products := products';
    }

    /** Stores a new user table. */
    method CommitUsers(users': Table<UserRow>)
      requires Consistent(products, users', orders, payments, carts, paymentLog)
      modifies this`users
      ensures Valid() && users == users'
    {
      users := users';
    }

    /** Stores a new order table. */
    method CommitOrders(orders': Table<OrderRow>)
      requires Consistent(products, users, orders', payments, carts, paymentLog)
      modifies this`orders
      ensures Valid() && orders == orders'
    {
      orders := orders';
    }

    /** Stores a new cart table. */
    method CommitCarts(carts': Table<CartRow>)
      requires Consistent(products, users, orders, payments, carts', paymentLog)
      modifies this`carts
      ensures Valid() && carts == carts'
    {
      carts := carts';
    }

    /** Stores a new payment table and payment history together. */
    method CommitPayment(payments': Table<PaymentRow>, ghost log': map<Id, seq<PaymentStatus>>)
      requires Consistent(products, users, orders, payments', carts, log')
      modifies this`payments, this`paymentLog
      ensures Valid() && payments == payments' && paymentLog == log'
    {
      payments, paymentLog := payments', log';
    }

    /** Stores new order and payment tables and payment history together,
        as one transaction commits them. */
    method CommitPayments(orders': Table<OrderRow>, payments': Table<PaymentRow>, ghost log': map<Id, seq<PaymentStatus>>)
      requires Consistent(products, users, orders', payments', carts, log')
      modifies this`orders, this`payments, this`paymentLog
      ensures Valid() && orders == orders' && payments == payments' && paymentLog == log'
    {
      orders, payments, paymentLog := orders', payments', log';
    }

    constructor ()
      ensures Valid()
      ensures products.rows == map[] && users.rows == map[] && orders.rows == map[]
      ensures payments.rows == map[] && carts.rows == map[]
    {
      products, users, orders := EmptyTable(), EmptyTable(), EmptyTable();
      payments, carts := EmptyTable(), EmptyTable();
      paymentLog := map[];
    }
  }
}
