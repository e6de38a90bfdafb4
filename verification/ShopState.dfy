/** The tables of the shop and the part of Stripe it talks to. */
module ShopState {
  import opened Wrappers
  import opened Stock

  // Every atomic change is one SQL statement, one transaction or one Stripe call. Orders,
  // payments and intents are numbered in the order they were inserted, so a larger payment
  // number is a newer row.

  datatype OrderStatus =
    | PendingPayment
    | Paid
    | PaymentFailed
    | Processing
    | Shipped
    | Delivered
    | Cancelled
    | RefundedOrder

  datatype PaymentStatus = Pending | Succeeded | Failed | CancelledPayment | RefundedPayment

  /** The states of a Stripe PaymentIntent; `failed` says whether a last payment error is attached. */
  datatype IntentStatus =
    | RequiresPaymentMethod(failed: bool)
    | RequiresConfirmation
    | RequiresAction
    | InProcess
    | IntentSucceeded
    | IntentCanceled

  datatype Order = Order(items: seq<Line>, status: OrderStatus)

  datatype Payment = Payment(order: nat, intent: nat, status: PaymentStatus)

  datatype Intent = Intent(order: nat, status: IntentStatus)

  /**
   What happened so far, kept for the statements only; no operation reads it.
   markedPaid: which operation moved an order from pending to paid.
   reaped:     the intents the canceller listed before the reaper cancelled an order.
   misjudged:  intents whose refused void was followed by a status check that saw them payable again.
   revived:    orders moved forward by an admin although their stock had been released.
   */
  datatype Notes = Notes(markedPaid: map<nat, nat>, reaped: map<nat, seq<nat>>, misjudged: set<nat>, revived: seq<nat>)

  /** `refunds` is Stripe's refund ledger: idempotency key (the payment row) to refunded intent. */
  datatype Db = Db(
    products: Products,
    orders: seq<Order>,
    payments: seq<Payment>,
    intents: seq<Intent>,
    refunds: map<nat, nat>,
    purchases: seq<nat>,
    announced: seq<nat>,
    notes: Notes)

  // ---------- reads ----------

  /** Statuses in which the order's items are still taken out of stock. */
  predicate HoldsStock(s: OrderStatus) {
    s.PendingPayment? || s.Paid? || s.Processing? || s.Shipped? || s.Delivered?
  }

  /** isPostPaymentStatus and refundable: the same four statuses. */
  predicate PostPayment(s: OrderStatus) {
    s.Paid? || s.Processing? || s.Shipped? || s.Delivered?
  }

  predicate Terminal(s: IntentStatus) {
    s.IntentSucceeded? || s.IntentCanceled?
  }

  predicate Payable(s: IntentStatus) {
    s.RequiresPaymentMethod? || s.RequiresConfirmation? || s.RequiresAction?
  }

  /** isReusableIntentStatus. */
  predicate Reusable(s: IntentStatus) {
    Payable(s) || s.InProcess?
  }

  /** LatestForOrder: the newest payment row of an order. */
  function Latest(payments: seq<Payment>, o: nat): (r: Option<nat>)
    ensures r.Some? ==> r.value < |payments| && payments[r.value].order == o
  {
    if payments == [] then None
    else
      var n := |payments| - 1;
      if payments[n].order == o then Some(n) else Latest(payments[..n], o)
  }

  /** GetByPaymentIntentID. */
  function RowOfIntent(payments: seq<Payment>, i: nat): (r: Option<nat>)
    ensures r.Some? ==> r.value < |payments| && payments[r.value].intent == i
  {
    if payments == [] then None
    else
      var n := |payments| - 1;
      if payments[n].intent == i then Some(n) else RowOfIntent(payments[..n], i)
  }

  /** PendingIntentIDsForOrder: oldest first. */
  function PendingIntents(payments: seq<Payment>, o: nat): seq<nat> {
    if payments == [] then []
    else
      var n := |payments| - 1;
      PendingIntents(payments[..n], o)
      + if payments[n].order == o && payments[n].status == Pending then [payments[n].intent] else []
  }

  /** No newer row of the order exists; without a result there is none at all. */
  lemma {:induction false} LatestIsNewest(payments: seq<Payment>, o: nat)
    ensures forall q :: 0 <= q < |payments| && payments[q].order == o ==>
              Latest(payments, o).Some? && q <= Latest(payments, o).value
  {
    if payments != [] { LatestIsNewest(payments[..|payments| - 1], o); }
  }

  lemma {:induction false} NoRowOfIntent(payments: seq<Payment>, i: nat)
    requires RowOfIntent(payments, i).None?
    ensures forall q :: 0 <= q < |payments| ==> payments[q].intent != i
  {
    if payments != [] { NoRowOfIntent(payments[..|payments| - 1], i); }
  }

  /** Exactly the intents of the order's pending rows are listed. */
  lemma {:induction false} PendingIntentsListed(payments: seq<Payment>, o: nat, i: nat)
    ensures i in PendingIntents(payments, o) <==> exists q :: 0 <= q < |payments| && payments[q] == Payment(o, i, Pending)
  {
    if payments != [] {
      var n := |payments| - 1;
      PendingIntentsListed(payments[..n], o, i);
      if i in PendingIntents(payments[..n], o) {
        var q :| 0 <= q < n && payments[..n][q] == Payment(o, i, Pending);
        assert payments[q] == Payment(o, i, Pending);
      }
      if payments[n].order == o && payments[n].status == Pending && payments[n].intent == i {
        assert payments[n] == Payment(o, i, Pending);
      }
    }
  }

  /** Oldest first: the intents of older rows stand before those of newer ones. */
  lemma {:induction false} PendingParts(older: seq<Payment>, newer: seq<Payment>, o: nat)
    ensures PendingIntents(older + newer, o) == PendingIntents(older, o) + PendingIntents(newer, o)
  {
    if newer == [] {
      assert older + newer == older;
    } else {
      var n := |newer| - 1;
      assert (older + newer)[..|older + newer| - 1] == older + newer[..n];
      PendingParts(older, newer[..n], o);
    }
  }

  // ---------- atomic changes ----------

  /** The committed checkout transaction. */
  function PlaceOrder(db: Db, lines: seq<Line>): Db {
    db.(products := Deduct(db.products, lines), orders := db.orders + [Order(lines, PendingPayment)])
  }

  function SetStatus(db: Db, o: nat, to: OrderStatus): Db
    requires o < |db.orders|
  {
    db.(orders := db.orders[o := db.orders[o].(status := to)])
  }

  function SetPayment(db: Db, p: nat, to: PaymentStatus): Db
    requires p < |db.payments|
  {
    db.(payments := db.payments[p := db.payments[p].(status := to)])
  }

  function SetIntent(db: Db, i: nat, to: IntentStatus): Db
    requires i < |db.intents|
  {
    db.(intents := db.intents[i := db.intents[i].(status := to)])
  }

  /** The release transaction after its compare-and-set hit: new status and every item back in stock. */
  function ReleaseOrder(db: Db, o: nat, to: OrderStatus, items: seq<Line>): Db
    requires o < |db.orders|
  {
    SetStatus(db, o, to).(products := Restock(db.products, items))
  }

  /** The forward admin edit after its compare-and-set hit. */
  function MoveForward(db: Db, o: nat, to: OrderStatus): Db
    requires o < |db.orders|
  {
    var db' := SetStatus(db, o, to);
    if HoldsStock(db.orders[o].status) then db'
    else db'.(notes := db.notes.(revived := db.notes.revived + [o]))
  }

  /** MarkPaid's compare-and-set after it hit, done by operation k. */
  function PayOrder(db: Db, o: nat, k: nat): Db
    requires o < |db.orders|
  {
    SetStatus(db, o, Paid).(notes := db.notes.(markedPaid := db.notes.markedPaid[o := k]))
  }

  /** Stripe executes a refund: once per key, and never a second one for an intent. */
  predicate RefundAccepted(db: Db, p: nat)
    requires p < |db.payments| && db.payments[p].intent < |db.intents|
  {
    p in db.refunds || (db.intents[db.payments[p].intent].status.IntentSucceeded?
                        && db.payments[p].intent !in db.refunds.Values)
  }

  function RefundCharge(db: Db, p: nat): Db
    requires p < |db.payments|
  {
    if p in db.refunds then db else db.(refunds := db.refunds[p := db.payments[p].intent])
  }

  /** UpdateCancelled: only a pending row is flipped. */
  function CancelRow(db: Db, i: nat): Db {
    var row := RowOfIntent(db.payments, i);
    if row.Some? && db.payments[row.value].status == Pending then SetPayment(db, row.value, CancelledPayment) else db
  }
}
