/** PaymentService: one payment per order, moved through the payment state
    machine by processing (through a gateway whose answer is a parameter)
    and refunding; and the payment lookups. */
module PaymentService {
  import opened Common
  import opened Tables
  import opened Entities
  import opened Store
  import opened TransactionIds

  type PaymentEntity = (Id, PaymentRow)

  const GatewaySuccess: string := "Payment processed successfully"
  const GatewayDeclined: string := "Payment gateway declined the transaction"

  predicate ForOrder(orderId: Id, e: PaymentEntity) {
    e.1.orderId == orderId
  }

  /** What a payment charges, and for which order, is fixed at creation. */
  predicate SameCharge(a: PaymentRow, b: PaymentRow) {
    a.orderId == b.orderId && a.amount == b.amount && a.transactionId == b.transactionId
    && a.paymentMethod == b.paymentMethod
  }

  /** `findByOrderId`: the payment of an order, if it has one. The database
      holds at most one per order, so the answer is that one. */
  function GetPaymentByOrderId(payments: Table<PaymentRow>, orderId: Id): (r: Option<PaymentEntity>)
    requires payments.Valid() && AtMostOnePaymentPerOrder(payments)
    ensures r.None? <==> forall p :: p in payments.rows ==> payments.rows[p].orderId != orderId
    ensures r.Some? ==> r.value.0 in payments.rows && payments.rows[r.value.0] == r.value.1
    ensures r.Some? ==> forall p :: p in payments.rows && payments.rows[p].orderId == orderId ==> p == r.value.0
  {
    var r := FindFirst(payments.All(), e => ForOrder(orderId, e));
    assert r.None? <==> forall p :: p in payments.rows ==> payments.rows[p].orderId != orderId by {
      if r.None? {
        forall p | p in payments.rows ensures payments.rows[p].orderId != orderId {
          assert (p, payments.rows[p]) in payments.All();
        }
      }
    }
    r
  }

  /** `createPayment`: fails for an unknown order or one that already has a
      payment; otherwise saves a PENDING payment for the order's total under
      a fresh transaction id. */
  method CreatePayment(db: Database, orderId: Id, paymentMethod: PaymentMethod, uuid: Uuid)
    returns (r: Result<PaymentEntity>)
    requires db.Valid()
    modifies db`payments, db`paymentLog
    ensures db.Valid()
    ensures r.Err? ==> db.payments == old(db.payments) && db.paymentLog == old(db.paymentLog)
    ensures orderId !in db.orders.rows ==> r == Err(OrderNotFound(orderId))
    ensures orderId in db.orders.rows && (exists p :: p in old(db.payments.rows) && old(db.payments.rows[p]).orderId == orderId) ==>
      r == Err(PaymentExists(orderId))
    ensures orderId in db.orders.rows && (forall p :: p in old(db.payments.rows) ==> old(db.payments.rows[p]).orderId != orderId) ==>
      && r == Ok((old(db.payments.nextId),
                  PaymentRow(orderId, paymentMethod, db.orders.rows[orderId].totalAmount, Pending,
                             GenerateTransactionId(uuid), None, None, None)))
      && db.payments == old(db.payments).Insert(r.value.1)
      && db.paymentLog == old(db.paymentLog)[r.value.0 := [Pending]]
  {
    var order := db.orders.Get(orderId);
    if order.None? {
      return Err(OrderNotFound(orderId));
    }
    var existing := GetPaymentByOrderId(db.payments, orderId);
    if existing.Some? {
      return Err(PaymentExists(orderId));
    }
    var payment := PaymentRow(orderId, paymentMethod, order.value.totalAmount, Pending,
                              GenerateTransactionId(uuid), None, None, None);
    var id := db.payments.nextId;
    PaymentCreated(db.products, db.users, db.orders, db.payments, db.carts, db.paymentLog, payment);
    db.CommitPayment(db.payments.Insert(payment), db.paymentLog[id := [Pending]]);
    r := Ok((id, payment));
  }

  /** `processPayment`: only a PENDING payment is processed. It is saved as
      PROCESSING, then settles on the gateway's answer: COMPLETED with the
      gateway's message, which also confirms the order, or FAILED with the
      decline reason. */
  method ProcessPayment(db: Database, paymentId: Id, approved: bool) returns (r: Result<PaymentEntity>)
    requires db.Valid()
    modifies db`payments, db`orders, db`paymentLog
    ensures db.Valid()
    ensures r.Err? ==> db.payments == old(db.payments) && db.orders == old(db.orders) && db.paymentLog == old(db.paymentLog)
    ensures paymentId !in old(db.payments.rows) ==> r == Err(PaymentNotFound(paymentId))
    ensures paymentId in old(db.payments.rows) && old(db.payments.rows[paymentId]).status != Pending ==>
      r == Err(NotPending)
    ensures paymentId in old(db.payments.rows) && old(db.payments.rows[paymentId]).status == Pending ==>
      var p := old(db.payments.rows[paymentId]);
      && r.Ok? && r.value.0 == paymentId && SameCharge(p, r.value.1)
      && db.payments == old(db.payments).Put(paymentId, r.value.1)
      && db.paymentLog == old(db.paymentLog)[paymentId := old(db.paymentLog[paymentId]) + [Processing, r.value.1.status]]
      && (approved ==>
            && r.value.1 == p.(status := Completed, gatewayResponse := Some(GatewaySuccess))
            && db.orders == old(db.orders).Put(p.orderId, old(db.orders.rows[p.orderId]).(status := Confirmed)))
      && (!approved ==>
            && r.value.1 == p.(status := Failed, failureReason := Some(GatewayDeclined))
            && db.orders == old(db.orders))
  {
    var found := db.payments.Get(paymentId);
    if found.None? {
      return Err(PaymentNotFound(paymentId));
    }
    var payment := found.value;
    if payment.status != Pending {
      return Err(NotPending);
    }
    // Both saves happen inside the one transaction: the PROCESSING row is
    // overwritten before commit, so only the history keeps it.
    ghost var history := db.paymentLog[paymentId];
    var processing := payment.(status := Processing);
    var settled, orders := processing, db.orders;
    if approved {
      settled := processing.(status := Completed, gatewayResponse := Some(GatewaySuccess));
      orders := orders.Put(payment.orderId, orders.rows[payment.orderId].(status := Confirmed));
    } else {
      settled := processing.(status := Failed, failureReason := Some(GatewayDeclined));
    }
    ghost var final := history + [Processing, settled.status];
    LifecycleExtendTwice(history, Processing, settled.status);
    OrdersChanged(db.products, db.users, db.orders, db.payments, db.carts, db.paymentLog, orders);
    PaymentSaved(db.products, db.users, orders, db.payments, db.carts, db.paymentLog, paymentId, settled, final);
    db.CommitPayments(orders, db.payments.Put(paymentId, settled), db.paymentLog[paymentId := final]);
    r := Ok((paymentId, settled));
  }

  /** `refundPayment`: only a COMPLETED payment is refunded; the reason is
      stored as given (even null) and the refund time recorded, and the order
      is marked REFUNDED. */
  method RefundPayment(db: Database, paymentId: Id, reason: Option<string>, now: Time) returns (r: Result<PaymentEntity>)
    requires db.Valid()
    modifies db`payments, db`orders, db`paymentLog
    ensures db.Valid()
    ensures r.Err? ==> db.payments == old(db.payments) && db.orders == old(db.orders) && db.paymentLog == old(db.paymentLog)
    ensures paymentId !in old(db.payments.rows) ==> r == Err(PaymentNotFound(paymentId))
    ensures paymentId in old(db.payments.rows) && old(db.payments.rows[paymentId]).status != Completed ==>
      r == Err(NotRefundable)
    ensures paymentId in old(db.payments.rows) && old(db.payments.rows[paymentId]).status == Completed ==>
      var p := old(db.payments.rows[paymentId]);
      && r == Ok((paymentId, p.(status := PaymentStatus.Refunded, failureReason := reason, processedAt := Some(now))))
      && SameCharge(p, r.value.1)
      && db.payments == old(db.payments).Put(paymentId, r.value.1)
      && db.orders == old(db.orders).Put(p.orderId, old(db.orders.rows[p.orderId]).(status := OrderStatus.Refunded))
      && db.paymentLog == old(db.paymentLog)[paymentId := old(db.paymentLog[paymentId]) + [PaymentStatus.Refunded]]
  {
    var found := db.payments.Get(paymentId);
    if found.None? {
      return Err(PaymentNotFound(paymentId));
    }
    var payment := found.value;
    if payment.status != Completed {
      return Err(NotRefundable);
    }
    payment := payment.(status := PaymentStatus.Refunded, failureReason := reason, processedAt := Some(now));
    var orders := db.orders.Put(payment.orderId, db.orders.rows[payment.orderId].(status := OrderStatus.Refunded));
    ghost var history := db.paymentLog[paymentId] + [PaymentStatus.Refunded];
    LifecycleExtend(db.paymentLog[paymentId], PaymentStatus.Refunded);
    OrdersChanged(db.products, db.users, db.orders, db.payments, db.carts, db.paymentLog, orders);
    PaymentSaved(db.products, db.users, orders, db.payments, db.carts, db.paymentLog, paymentId, payment, history);
    db.CommitPayments(orders, db.payments.Put(paymentId, payment), db.paymentLog[paymentId := history]);
    r := Ok((paymentId, payment));
  }

  /** Whatever happened to a stored payment, it went through the gateway at
      most once, and it is REFUNDED only if it once was COMPLETED. */
  lemma PaymentHistory(db: Database, paymentId: Id)
    requires db.Valid() && paymentId in db.payments.rows
    ensures multiset(db.paymentLog[paymentId])[Processing] <= 1
    ensures db.payments.rows[paymentId].status == PaymentStatus.Refunded ==> Completed in db.paymentLog[paymentId]
    ensures db.payments.rows[paymentId].status in {Completed, Failed, PaymentStatus.Refunded} ==>
      Processing in db.paymentLog[paymentId]
  {
    var h := db.paymentLog[paymentId];
    HistoryFacts(h);
    assert h[|h| - 1] in h;
  }

  /** `getPaymentById` */
  function GetPaymentById(payments: Table<PaymentRow>, paymentId: Id): (r: Option<PaymentRow>)
    ensures r.Some? <==> paymentId in payments.rows
    ensures r.Some? ==> r.value == payments.rows[paymentId]
  {
    payments.Get(paymentId)
  }

  /** `findByStatus` */
  function GetPaymentsByStatus(payments: Table<PaymentRow>, status: PaymentStatus): (r: seq<PaymentEntity>)
    requires payments.Valid()
    ensures Distinct(r) && Subsequence(r, payments.All())
    ensures forall e :: e in r <==> e.0 in payments.rows && payments.rows[e.0] == e.1 && e.1.status == status
  {
    Where(payments, (e: PaymentEntity) => e.1.status == status)
  }

  /** The payments carrying `transactionId`, in store order. */
  function WithTransactionId(payments: Table<PaymentRow>, transactionId: string): (r: seq<PaymentEntity>)
    requires payments.Valid()
    ensures Distinct(r) && Subsequence(r, payments.All())
    ensures forall e :: e in r <==> e.0 in payments.rows && payments.rows[e.0] == e.1 && e.1.transactionId == transactionId
  {
    Where(payments, (e: PaymentEntity) => e.1.transactionId == transactionId)
  }

  /** `findByTransactionId`: none, the one payment with that id, or the
      failure a single-result query raises when two payments share it. */
  function GetPaymentByTransactionId(payments: Table<PaymentRow>, transactionId: string)
    : (r: Result<Option<PaymentEntity>>)
    requires payments.Valid()
    ensures r == Ok(None) <==> forall p :: p in payments.rows ==> payments.rows[p].transactionId != transactionId
    ensures r.Err? <==> exists p, q :: p in payments.rows && q in payments.rows && p != q
                          && payments.rows[p].transactionId == transactionId
                          && payments.rows[q].transactionId == transactionId
    ensures r.Err? ==> r.error == NonUniqueResult
    ensures r.Ok? && r.value.Some? ==>
      && r.value.value.0 in payments.rows && payments.rows[r.value.value.0] == r.value.value.1
      && forall p :: p in payments.rows && payments.rows[p].transactionId == transactionId ==> p == r.value.value.0
  {
    var m := WithTransactionId(payments, transactionId);
    if |m| == 0 then
      assert forall p :: p in payments.rows && payments.rows[p].transactionId == transactionId ==> (p, payments.rows[p]) in m;
      Ok(None)
    else if |m| == 1 then
      assert m == [m[0]];
      assert forall p :: p in payments.rows && payments.rows[p].transactionId == transactionId ==> (p, payments.rows[p]) in m;
      Ok(Some(m[0]))
    else
      assert m[0] in m && m[1] in m && m[0] != m[1];
      Err(NonUniqueResult)
  }
}
