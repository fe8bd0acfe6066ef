/** The User, Order and Payment entities, as the services use them. Their own
    classes and enums are not part of this model, so each record holds only
    the fields the services read or write. */
module Entities {
  import opened Common

  /** A role; the enum's constants are not part of this model. */
  datatype Role = Role(name: string)

  datatype UserRow = UserRow(
    username: Option<string>,
    email: Option<string>,
    password: Option<string>,
    role: Option<Role>)

  datatype OrderStatus = Created | Confirmed | Shipped | Delivered | Cancelled | Refunded

  /** The status a new Order holds before any service sets one. `createOrder`
      never sets it; the entity's initialiser is assumed to give CREATED. */
  const InitialOrderStatus: OrderStatus := Created

  /** An order: its owner, the product set and total captured at creation,
      its date, status and optional tracking number. */
  datatype OrderRow = OrderRow(
    user: Id,
    products: set<Id>,
    totalAmount: Money,
    orderDate: Time,
    status: OrderStatus,
    trackingNumber: Option<string>)

  /** A payment method; the enum's constants are not part of this model. */
  datatype PaymentMethod = PaymentMethod(name: string)

  datatype PaymentStatus = Pending | Processing | Completed | Failed | Refunded

  datatype PaymentRow = PaymentRow(
    orderId: Id,
    paymentMethod: PaymentMethod,
    amount: Money,
    status: PaymentStatus,
    transactionId: string,
    gatewayResponse: Option<string>,
    failureReason: Option<string>,
    processedAt: Option<Time>)

  // ---------------------------------------------------------------------------
  // The payment state machine.

  /** PENDING -> PROCESSING -> {COMPLETED, FAILED}; COMPLETED -> REFUNDED. */
  predicate Step(a: PaymentStatus, b: PaymentStatus) {
    || (a == Pending && b == Processing)
    || (a == Processing && (b == Completed || b == Failed))
    || (a == Completed && b == PaymentStatus.Refunded)
  }

  /** A sequence of saved statuses that the state machine allows: it starts at
      PENDING and every move is a `Step`. */
  ghost predicate Lifecycle(h: seq<PaymentStatus>) {
    && |h| >= 1
    && h[0] == Pending
    && forall i :: 0 <= i < |h| - 1 ==> StepAt(h, i)
  }

  /** The move from the `i`-th saved status to the next one is allowed. */
  ghost predicate StepAt(h: seq<PaymentStatus>, i: nat)
    requires i < |h| - 1
  {
    Step(h[i], h[i + 1])
  }

  /** An allowed history whose last saved status is `s`. */
  ghost predicate EndsAt(h: seq<PaymentStatus>, s: PaymentStatus) {
    Lifecycle(h) && h[|h| - 1] == s
  }

  lemma LifecycleExtend(h: seq<PaymentStatus>, s: PaymentStatus)
    requires Lifecycle(h) && Step(h[|h| - 1], s)
    ensures Lifecycle(h + [s])
  {
    var h' := h + [s];
    forall i | 0 <= i < |h'| - 1 ensures StepAt(h', i) {
      if i < |h| - 1 {
        assert StepAt(h, i);
        assert h'[i] == h[i] && h'[i + 1] == h[i + 1];
      }
    }
  }

  lemma LifecycleExtendTwice(h: seq<PaymentStatus>, a: PaymentStatus, b: PaymentStatus)
    requires Lifecycle(h) && Step(h[|h| - 1], a) && Step(a, b)
    ensures Lifecycle(h + [a, b])
  {
    LifecycleExtend(h, a);
    LifecycleExtend(h + [a], b);
    assert h + [a] + [b] == h + [a, b];
  }

  /** Every history the state machine allows is one of five: a payment is
      never processed twice, FAILED and REFUNDED are never left, and only a
      COMPLETED payment is ever refunded. */
  lemma {:induction false} LifecycleShapes(h: seq<PaymentStatus>)
    requires Lifecycle(h)
    ensures || h == [Pending]
            || h == [Pending, Processing]
            || h == [Pending, Processing, Completed]
            || h == [Pending, Processing, Failed]
            || h == [Pending, Processing, Completed, PaymentStatus.Refunded]
  {
    forall i | 0 <= i < |h| - 1 ensures h[i] != Failed && h[i] != PaymentStatus.Refunded {
      assert StepAt(h, i);
    }
    if |h| >= 2 {
      assert StepAt(h, 0);
    }
    if |h| >= 3 {
      assert StepAt(h, 1);
    }
    if |h| >= 4 {
      assert StepAt(h, 2);
    }
    assert |h| <= 4;
    if |h| == 1 {
      assert h == [h[0]];
    } else if |h| == 2 {
      assert h == [h[0], h[1]];
    } else if |h| == 3 {
      assert h == [h[0], h[1], h[2]];
    } else if |h| == 4 {
      assert h == [h[0], h[1], h[2], h[3]];
    }
  }

  /** FAILED and REFUNDED are terminal: in an allowed history they can only
      come last. */
  lemma TerminalIsLast(h: seq<PaymentStatus>, i: nat)
    requires Lifecycle(h) && i < |h| && h[i] in {Failed, PaymentStatus.Refunded}
    ensures i == |h| - 1
  {
    LifecycleShapes(h);
  }

  /** A payment goes through the gateway at most once, settles only after
      it did, and is refunded only after it completed. */
  lemma HistoryFacts(h: seq<PaymentStatus>)
    requires Lifecycle(h)
    ensures multiset(h)[Processing] <= 1
    ensures (Completed in h || Failed in h) ==> Processing in h
    ensures PaymentStatus.Refunded in h ==> Completed in h
    ensures !(Completed in h && Failed in h)
  {
    LifecycleShapes(h);
  }
}
