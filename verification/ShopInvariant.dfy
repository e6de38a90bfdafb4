/**
 What every step of every operation keeps. The database invariant ties rows,
 Stripe and statuses together; the operation invariant says what the values an
 operation carries are still worth after everyone else has moved. Each kind of step has
 its own lemma; together they make the invariant hold in every reachable state.
 */
module ShopInvariant {
  import opened Stock
  import opened ShopState
  import opened Operations

  predicate LeftPending(db: Db, o: nat) {
    o < |db.orders| && db.orders[o].status != PendingPayment
  }

  predicate Charged(db: Db, i: nat) {
    i < |db.intents| && db.intents[i].status.IntentSucceeded?
  }

  /** Voided at Stripe, unless its status check was overtaken. */
  predicate Voided(db: Db, i: nat) {
    i < |db.intents| && (db.intents[i].status.IntentCanceled? || i in db.notes.misjudged)
  }

  predicate RefundedFor(db: Db, o: nat) {
    exists p :: p in db.refunds && p < |db.payments| && db.payments[p].order == o
  }

  predicate ValidItems(db: Db, items: seq<Line>) {
    items != [] && ValidCart(items) && forall i :: 0 <= i < |items| ==> items[i].product in db.products
  }

  predicate OrderOk(db: Db, o: nat)
    requires o < |db.orders|
  {
    && ValidItems(db, db.orders[o].items)
    && (db.orders[o].status == RefundedOrder ==> RefundedFor(db, o))
    && (db.orders[o].status == Paid ==> o in db.notes.markedPaid)
  }

  predicate PaymentOk(db: Db, p: nat)
    requires p < |db.payments|
  {
    var row := db.payments[p];
    && row.order < |db.orders|
    && row.intent < |db.intents|
    && db.intents[row.intent].order == row.order
    && (row.status == Succeeded || row.status == RefundedPayment ==> LeftPending(db, row.order) && Charged(db, row.intent))
    && (row.status == RefundedPayment ==> p in db.refunds)
    && (row.status == CancelledPayment ==> Voided(db, row.intent))
  }

  predicate RefundOk(db: Db, p: nat) {
    && p < |db.payments| && p in db.refunds && db.refunds[p] == db.payments[p].intent
    && LeftPending(db, db.payments[p].order) && Charged(db, db.payments[p].intent)
  }

  predicate PaidOk(db: Db, o: nat) {
    o < |db.orders| && (PostPayment(db.orders[o].status) || db.orders[o].status == RefundedOrder)
  }

  predicate AllVoided(db: Db, listed: seq<nat>, n: nat) {
    n <= |listed| && forall j :: 0 <= j < n ==> Voided(db, listed[j])
  }

  predicate InRange(db: Db, listed: seq<nat>) {
    forall j :: 0 <= j < |listed| ==> listed[j] < |db.intents|
  }

  predicate DistinctIntents(db: Db) {
    forall p, q :: 0 <= p < q < |db.payments| ==> db.payments[p].intent != db.payments[q].intent
  }

  predicate DistinctPurchases(db: Db) {
    && (forall a, b :: 0 <= a < b < |db.purchases| ==> db.purchases[a] != db.purchases[b])
    && (forall o :: o in db.purchases ==> o in db.notes.markedPaid)
  }

  predicate DbInv(db: Db) {
    && NonNegative(db.products)
    && (forall o :: 0 <= o < |db.orders| ==> OrderOk(db, o))
    && (forall p :: 0 <= p < |db.payments| ==> PaymentOk(db, p))
    && DistinctIntents(db)
    && (forall p :: p in db.refunds ==> RefundOk(db, p))
    && (forall o :: o in db.notes.markedPaid ==> PaidOk(db, o))
    && DistinctPurchases(db)
    && (forall o :: o in db.notes.reaped ==> LeftPending(db, o) && AllVoided(db, db.notes.reaped[o], |db.notes.reaped[o]|))
    && (forall n :: 0 <= n < |db.notes.revived| ==> db.notes.revived[n] < |db.orders|)
  }

  // ---------- what an operation may rely on ----------

  predicate PaymentSeen(db: Db, p: nat) {
    p < |db.payments| && db.payments[p].order < |db.orders| && db.payments[p].intent < |db.intents|
  }

  /** A payment of order o whose charge went through and whose order is past pending. */
  predicate Refundable(db: Db, o: nat, p: nat) {
    && PaymentSeen(db, p) && db.payments[p].order == o
    && LeftPending(db, o) && Charged(db, db.payments[p].intent)
  }

  predicate Legal(db: Db, o: nat, from: OrderStatus, target: OrderStatus, reason: Reason) {
    o < |db.orders| && match reason
    case ByCancel => from == PendingPayment && target == Cancelled
    case ByAdmin => from == PendingPayment && target == Cancelled
    case ByFailure => from == PendingPayment && target == PaymentFailed
    case ByReaper(listed) => from == PendingPayment && target == Cancelled && AllVoided(db, listed, |listed|)
    case ByRefund(p) => PostPayment(from) && target == RefundedOrder && p in db.refunds && p < |db.payments| && db.payments[p].order == o
  }

  predicate PlainInv(k: nat, op: Op, db: Db) {
    match op
    case Checkout(lines) => lines != [] && ValidCart(lines)
    case EditForward(_, _, target) => AdminSettable(target) && target != Cancelled
    case ReadItems(o, from, target, reason) => Legal(db, o, from, target, reason)
    case Release(o, items, from, target, reason) =>
      Legal(db, o, from, target, reason) && items == db.orders[o].items
    case RefundRead(o, after) => o < |db.orders| && (after.ThenRelease? ==> PostPayment(after.from))
    case RefundCall(o, p, after) => Refundable(db, o, p) && (after.ThenRelease? ==> PostPayment(after.from))
    case RefundMark(o, p, after) =>
      Refundable(db, o, p) && p in db.refunds && (after.ThenRelease? ==> PostPayment(after.from))
    case SucceededEvent(i) => Charged(db, i)
    case PayCas(p) => PaymentSeen(db, p) && Charged(db, db.payments[p].intent)
    case LogPurchases(p) =>
      && PaymentSeen(db, p) && Refundable(db, db.payments[p].order, p)
      && db.payments[p].order in db.notes.markedPaid && db.notes.markedPaid[db.payments[p].order] == k
      && db.payments[p].order !in db.purchases
    case PayRead(p) => PaymentSeen(db, p) && Refundable(db, db.payments[p].order, p)
    case RecordSucceeded(p, _) => PaymentSeen(db, p) && Refundable(db, db.payments[p].order, p)
    case Announce(p) => PaymentSeen(db, p)
    case RecordFailed(p) => PaymentSeen(db, p)
    case ReconcileCheck(p) => PaymentSeen(db, p)
    case ReapStart(o) => o < |db.orders|
    case Void(o, listed, n) => o < |db.orders| && n < |listed| && InRange(db, listed) && AllVoided(db, listed, n)
    case VoidCheck(o, listed, n) => o < |db.orders| && n < |listed| && InRange(db, listed) && AllVoided(db, listed, n)
    case VoidRecord(o, listed, n) => o < |db.orders| && n < |listed| && InRange(db, listed) && AllVoided(db, listed, n + 1)
    case IntentReload(o) => o < |db.orders|
    case IntentReuse(o) => o < |db.orders|
    case IntentProbe(o, p) => o < |db.orders| && PaymentSeen(db, p) && db.payments[p].order == o
    case IntentNew(o) => o < |db.orders|
    case IntentRow(o, i) => o < |db.orders| && i < |db.intents| && db.intents[i].order == o
    case _ => true
  }

  /** A request for an intent may rely on what the reconcile inside it relies on. */
  predicate OpInv(k: nat, op: Op, db: Db) {
    PlainInv(k, Core(op), db) && (op.IntentFirst? ==> Reconciling(op.inner) && op.order < |db.orders|)
  }

  predicate Inv(w: World) {
    DbInv(w.db) && |w.asked| == |w.ops| && forall k :: 0 <= k < |w.ops| ==> OpInv(k, w.ops[k], w.db)
  }

  /**
   How the database may change while operation k moves: rows are never removed or
   re-linked, items never change, nothing re-enters pending, terminal intents and
   executed refunds stay, and only k itself logs the purchases of what k paid.
   */
  predicate Evolves(db: Db, db': Db, k: nat) {
    && db.products.Keys == db'.products.Keys
    && |db.orders| <= |db'.orders| && |db.payments| <= |db'.payments| && |db.intents| <= |db'.intents|
    && (forall o :: 0 <= o < |db.orders| ==>
          db'.orders[o].items == db.orders[o].items
          && (db.orders[o].status != PendingPayment ==> db'.orders[o].status != PendingPayment))
    && (forall p :: 0 <= p < |db.payments| ==>
          db'.payments[p].order == db.payments[p].order && db'.payments[p].intent == db.payments[p].intent)
    && (forall i :: 0 <= i < |db.intents| ==>
          db'.intents[i].order == db.intents[i].order
          && (Terminal(db.intents[i].status) ==> db'.intents[i].status == db.intents[i].status))
    && (forall p :: p in db.refunds ==> p in db'.refunds && db'.refunds[p] == db.refunds[p])
    && (forall o :: o in db.notes.markedPaid ==>
          o in db'.notes.markedPaid && db'.notes.markedPaid[o] == db.notes.markedPaid[o])
    && db.notes.misjudged <= db'.notes.misjudged
    && (forall o :: o in db.notes.reaped ==> o in db'.notes.reaped)
    && (forall o :: o in db'.purchases && o !in db.purchases ==>
          o in db.notes.markedPaid && db.notes.markedPaid[o] == k)
  }

  lemma EvolvesVoided(db: Db, db': Db, k: nat, listed: seq<nat>, n: nat)
    requires Evolves(db, db', k) && AllVoided(db, listed, n)
    ensures AllVoided(db', listed, n)
  {
    forall j | 0 <= j < n ensures Voided(db', listed[j]) {
      assert Voided(db, listed[j]);
    }
  }

  lemma EvolvesRefundable(db: Db, db': Db, k: nat, o: nat, p: nat)
    requires Evolves(db, db', k) && Refundable(db, o, p)
    ensures Refundable(db', o, p)
  {
  }

  /** What an operation carries stays true while any other operation moves. */
  lemma OthersStay(db: Db, db': Db, k: nat, j: nat, op: Op)
    requires Evolves(db, db', k) && j != k && OpInv(j, op, db)
    ensures OpInv(j, op, db')
  {
    hide PlainInv;
    PlainStays(db, db', k, j, Core(op));
  }

  lemma EvolvesLegal(db: Db, db': Db, k: nat, o: nat, from: OrderStatus, target: OrderStatus, reason: Reason)
    requires Evolves(db, db', k) && Legal(db, o, from, target, reason)
    ensures o < |db.orders| && Legal(db', o, from, target, reason)
  {
    if reason.ByReaper? { EvolvesVoided(db, db', k, reason.listed, |reason.listed|); }
  }

  lemma PlainStays(db: Db, db': Db, k: nat, j: nat, op: Op)
    requires Evolves(db, db', k) && j != k && PlainInv(j, op, db)
    ensures PlainInv(j, op, db')
  {
    hide Legal, Refundable, AllVoided;
    if op.ReadItems? || op.Release? {
      EvolvesLegal(db, db', k, op.order, op.from, op.target, op.reason);
    } else if op.RefundCall? || op.RefundMark? {
      EvolvesRefundable(db, db', k, op.order, op.payment);
    } else if op.LogPurchases? || op.PayRead? || op.RecordSucceeded? {
      EvolvesRefundable(db, db', k, db.payments[op.payment].order, op.payment);
    } else if op.Void? || op.VoidCheck? {
      EvolvesVoided(db, db', k, op.listed, op.next);
    } else if op.VoidRecord? {
      EvolvesVoided(db, db', k, op.listed, op.next + 1);
    }
  }

  // ---------- the atomic changes keep the database invariant ----------

  /** Everything DbInv says about rows, refunds and notes survives as long as the database only evolves. */
  lemma RowsStay(db: Db, db': Db, k: nat)
    requires DbInv(db) && Evolves(db, db', k)
    ensures forall o :: RefundedFor(db, o) ==> RefundedFor(db', o)
    ensures forall p :: p in db.refunds ==> RefundOk(db', p)
    ensures forall o :: 0 <= o < |db.orders| ==> ValidItems(db', db'.orders[o].items)
    ensures forall p :: 0 <= p < |db.payments| && db'.payments[p].status == db.payments[p].status ==> PaymentOk(db', p)
    ensures forall o :: o in db.notes.reaped ==>
      LeftPending(db', o) && AllVoided(db', db.notes.reaped[o], |db.notes.reaped[o]|)
    ensures forall n :: 0 <= n < |db.notes.revived| ==> db.notes.revived[n] < |db'.orders|
  {
    forall o | RefundedFor(db, o) ensures RefundedFor(db', o) {
      var p :| p in db.refunds && p < |db.payments| && db.payments[p].order == o;
      assert p in db'.refunds && db'.payments[p].order == o;
    }
    forall p | p in db.refunds ensures RefundOk(db', p) {
      assert RefundOk(db, p);
    }
    forall o | 0 <= o < |db.orders| ensures ValidItems(db', db'.orders[o].items) {
      assert OrderOk(db, o);
    }
    forall p | 0 <= p < |db.payments| && db'.payments[p].status == db.payments[p].status ensures PaymentOk(db', p) {
      assert PaymentOk(db, p);
    }
    forall o | o in db.notes.reaped
      ensures LeftPending(db', o) && AllVoided(db', db.notes.reaped[o], |db.notes.reaped[o]|)
    {
      EvolvesVoided(db, db', k, db.notes.reaped[o], |db.notes.reaped[o]|);
    }
  }

  lemma PlaceOrderKeeps(db: Db, lines: seq<Line>, k: nat)
    requires DbInv(db) && lines != [] && ValidCart(lines) && AcceptsAll(db.products, lines)
    ensures DbInv(PlaceOrder(db, lines)) && Evolves(db, PlaceOrder(db, lines), k)
  {
    var db' := PlaceOrder(db, lines);
    DeductTakesUnits(db.products, lines);
    AcceptedCheckoutKeepsStock(db.products, lines);
    RowsStay(db, db', k);
    forall o | 0 <= o < |db'.orders| ensures OrderOk(db', o) {
      if o < |db.orders| {
        assert OrderOk(db, o);
      } else {
        forall i | 0 <= i < |lines| ensures lines[i].product in db'.products { assert Accepts(db.products, lines[i]); }
      }
    }
    forall o | o in db.notes.markedPaid ensures PaidOk(db', o) { assert PaidOk(db, o); }
  }

  /** An allowed status change of one order, with or without its items going back to stock. */
  predicate StatusMoves(db: Db, db': Db, o: nat, to: OrderStatus) {
    && o < |db.orders| && to != PendingPayment
    && db'.orders == db.orders[o := db.orders[o].(status := to)]
    && db'.products.Keys == db.products.Keys && NonNegative(db'.products)
    && db' == db.(products := db'.products, orders := db'.orders, notes := db'.notes)
    && (to == RefundedOrder ==> RefundedFor(db, o))
    && StatusNotes(db, db', o, to)
  }

  predicate StatusNotes(db: Db, db': Db, o: nat, to: OrderStatus) {
    && db'.notes.misjudged == db.notes.misjudged
    && (to == Paid ==> o in db'.notes.markedPaid)
    && (forall x :: x in db.notes.markedPaid ==>
          x in db'.notes.markedPaid && db'.notes.markedPaid[x] == db.notes.markedPaid[x])
    && (forall x :: x in db'.notes.markedPaid && x !in db.notes.markedPaid ==> x == o && to == Paid)
    && (o in db.notes.markedPaid ==> PostPayment(to) || to == RefundedOrder)
    && (forall x :: x in db.notes.reaped ==> x in db'.notes.reaped)
    && (forall x :: x in db'.notes.reaped ==>
          (x in db.notes.reaped && db'.notes.reaped[x] == db.notes.reaped[x])
          || (x == o && AllVoided(db, db'.notes.reaped[x], |db'.notes.reaped[x]|)))
    && (db'.notes.revived == db.notes.revived || db'.notes.revived == db.notes.revived + [o])
  }

  lemma StatusEvolves(db: Db, db': Db, o: nat, to: OrderStatus, k: nat)
    requires StatusMoves(db, db', o, to)
    ensures Evolves(db, db', k)
  {
  }

  lemma StatusReaps(db: Db, db': Db, o: nat, to: OrderStatus, k: nat)
    requires DbInv(db) && StatusMoves(db, db', o, to) && Evolves(db, db', k)
    ensures forall x :: x in db'.notes.reaped ==>
              LeftPending(db', x) && AllVoided(db', db'.notes.reaped[x], |db'.notes.reaped[x]|)
  {
    hide Evolves;
    RowsStay(db, db', k);
    forall x | x in db'.notes.reaped
      ensures LeftPending(db', x) && AllVoided(db', db'.notes.reaped[x], |db'.notes.reaped[x]|)
    {
      if !(x in db.notes.reaped && db'.notes.reaped[x] == db.notes.reaped[x]) {
        EvolvesVoided(db, db', k, db'.notes.reaped[x], |db'.notes.reaped[x]|);
      }
    }
  }

  lemma StatusKeeps(db: Db, db': Db, o: nat, to: OrderStatus, k: nat)
    requires DbInv(db) && StatusMoves(db, db', o, to)
    ensures DbInv(db') && Evolves(db, db', k)
  {
    hide Evolves, AllVoided;
    StatusEvolves(db, db', o, to, k);
    StatusReaps(db, db', o, to, k);
    RowsStay(db, db', k);
    forall x | 0 <= x < |db'.orders| ensures OrderOk(db', x) { assert OrderOk(db, x); }
    forall x | x in db'.notes.markedPaid ensures PaidOk(db', x) {
      if x in db.notes.markedPaid { assert PaidOk(db, x); }
    }
  }

  lemma PaymentKeeps(db: Db, p: nat, to: PaymentStatus, k: nat)
    requires DbInv(db) && p < |db.payments|
    requires to == Succeeded || to == RefundedPayment ==> Refundable(db, db.payments[p].order, p)
    requires to == RefundedPayment ==> p in db.refunds
    requires to == CancelledPayment ==> Voided(db, db.payments[p].intent)
    ensures DbInv(SetPayment(db, p, to)) && Evolves(db, SetPayment(db, p, to), k)
  {
    var db' := SetPayment(db, p, to);
    RowsStay(db, db', k);
    forall o | 0 <= o < |db'.orders| ensures OrderOk(db', o) { assert OrderOk(db, o); }
    forall q | 0 <= q < |db'.payments| ensures PaymentOk(db', q) { assert PaymentOk(db, q); }
    forall o | o in db.notes.markedPaid ensures PaidOk(db', o) { assert PaidOk(db, o); }
  }

  lemma RefundKeeps(db: Db, o: nat, p: nat, k: nat)
    requires DbInv(db) && Refundable(db, o, p)
    ensures DbInv(RefundCharge(db, p)) && Evolves(db, RefundCharge(db, p), k)
  {
    var db' := RefundCharge(db, p);
    RowsStay(db, db', k);
    forall x | 0 <= x < |db'.orders| ensures OrderOk(db', x) { assert OrderOk(db, x); }
    forall q | 0 <= q < |db'.payments| ensures PaymentOk(db', q) { assert PaymentOk(db, q); }
    forall q | q in db'.refunds ensures RefundOk(db', q) {
      if q in db.refunds { assert RefundOk(db, q); }
    }
    forall x | x in db.notes.markedPaid ensures PaidOk(db', x) { assert PaidOk(db, x); }
  }

  lemma IntentKeeps(db: Db, i: nat, to: IntentStatus, k: nat)
    requires DbInv(db) && i < |db.intents| && !Terminal(db.intents[i].status)
    ensures DbInv(SetIntent(db, i, to)) && Evolves(db, SetIntent(db, i, to), k)
  {
    var db' := SetIntent(db, i, to);
    RowsStay(db, db', k);
    forall o | 0 <= o < |db'.orders| ensures OrderOk(db', o) { assert OrderOk(db, o); }
    forall o | o in db.notes.markedPaid ensures PaidOk(db', o) { assert PaidOk(db, o); }
  }

  predicate NewRow(db: Db, row: Payment) {
    && row.status == Pending && row.order < |db.orders| && row.intent < |db.intents|
    && db.intents[row.intent].order == row.order
    && forall q :: 0 <= q < |db.payments| ==> db.payments[q].intent != row.intent
  }

  /** Appending intents, at most one pending payment row or announcements, and noting a misjudged intent. */
  predicate Grows(db: Db, db': Db) {
    && db' == db.(intents := db'.intents, payments := db'.payments, announced := db'.announced, notes := db'.notes)
    && db'.notes == db.notes.(misjudged := db'.notes.misjudged) && db.notes.misjudged <= db'.notes.misjudged
    && db.intents <= db'.intents
    && (db'.payments == db.payments
        || (|db'.payments| == |db.payments| + 1 && db.payments <= db'.payments && NewRow(db, db'.payments[|db.payments|])))
  }

  lemma GrowsEvolves(db: Db, db': Db, k: nat)
    requires DbInv(db) && Grows(db, db')
    ensures Evolves(db, db', k)
  {
  }

  lemma GrowsKeeps(db: Db, db': Db, k: nat)
    requires DbInv(db) && Grows(db, db')
    ensures DbInv(db') && Evolves(db, db', k)
  {
    hide Evolves;
    GrowsEvolves(db, db', k);
    RowsStay(db, db', k);
    forall o | 0 <= o < |db'.orders| ensures OrderOk(db', o) { assert OrderOk(db, o); }
    forall o | o in db.notes.markedPaid ensures PaidOk(db', o) { assert PaidOk(db, o); }
    forall p | 0 <= p < |db'.payments| ensures PaymentOk(db', p) {
      if p < |db.payments| { assert PaymentOk(db, p); }
    }
  }

  lemma PurchaseKeeps(db: Db, o: nat, k: nat)
    requires DbInv(db) && o in db.notes.markedPaid && db.notes.markedPaid[o] == k && o !in db.purchases
    ensures DbInv(db.(purchases := db.purchases + [o])) && Evolves(db, db.(purchases := db.purchases + [o]), k)
  {
    var db' := db.(purchases := db.purchases + [o]);
    RowsStay(db, db', k);
    forall x | 0 <= x < |db'.orders| ensures OrderOk(db', x) { assert OrderOk(db, x); }
    forall x | x in db.notes.markedPaid ensures PaidOk(db', x) { assert PaidOk(db, x); }
  }

  // ---------- every step of every operation ----------

  /** What a step outside a nested reconcile keeps. */
  predicate Kept(k: nat, db: Db, m: Moved) {
    DbInv(m.db) && Evolves(db, m.db, k) && PlainInv(k, m.op, m.db)
  }

  /** A step that changes nothing. */
  lemma StaysPut(k: nat, db: Db)
    ensures Evolves(db, db, k)
  {
  }

  lemma RowOk(db: Db, p: nat)
    requires DbInv(db) && p < |db.payments|
    ensures PaymentOk(db, p)
  {
  }

  lemma ReleaseMoves(k: nat, op: Op, db: Db)
    requires DbInv(db) && op.Release? && PlainInv(k, op, db) && db.orders[op.order].status == op.from
    ensures StatusMoves(db, NextRelease(op, db, true).db, op.order, op.target)
  {
    RestockGivesUnits(db.products, op.items);
    if op.order in db.notes.markedPaid { assert PaidOk(db, op.order); }
  }

  lemma ReleaseStep(k: nat, op: Op, db: Db, ok: bool)
    requires DbInv(db) && op.Release? && PlainInv(k, op, db)
    ensures Kept(k, db, NextRelease(op, db, ok))
  {
    hide DbInv, Evolves, StatusMoves;
    StaysPut(k, db);
    if ok && db.orders[op.order].status == op.from {
      ReleaseMoves(k, op, db);
      StatusKeeps(db, NextRelease(op, db, ok).db, op.order, op.target, k);
    }
  }

  lemma EditStep(k: nat, op: Op, db: Db, ok: bool)
    requires DbInv(db) && op.EditForward? && PlainInv(k, op, db)
    ensures Kept(k, db, NextOrder(op, db, ok))
  {
    if ok && op.order < |db.orders| && db.orders[op.order].status == op.from {
      StatusKeeps(db, MoveForward(db, op.order, op.target), op.order, op.target, k);
    }
  }

  lemma RefundStep(k: nat, op: Op, db: Db, ok: bool)
    requires DbInv(db) && OnRefund(op) && PlainInv(k, op, db)
    ensures Kept(k, db, NextRefund(op, db, ok))
  {
    hide DbInv, Evolves;
    StaysPut(k, db);
    match op
    case RefundRead(o, after) =>
      var row := Latest(db.payments, o);
      if row.Some? { RowOk(db, row.value); }
    case RefundCall(o, p, after) =>
      if ok && RefundAccepted(db, p) { RefundKeeps(db, o, p, k); }
    case RefundMark(o, p, after) =>
      if ok { PaymentKeeps(db, p, RefundedPayment, k); }
  }

  lemma PayMoves(db: Db, o: nat, k: nat)
    requires DbInv(db) && o < |db.orders| && db.orders[o].status == PendingPayment
    ensures StatusMoves(db, PayOrder(db, o, k), o, Paid) && o !in db.purchases
  {
    assert forall x :: x in db.notes.markedPaid ==> PaidOk(db, x);
  }

  lemma PayCasStep(k: nat, op: Op, db: Db, ok: bool)
    requires DbInv(db) && PlainInv(k, op, db) && op.PayCas?
    ensures Kept(k, db, NextSucceeded(k, op, db, ok))
  {
    hide DbInv, Evolves, StatusMoves;
    StaysPut(k, db);
    var o := db.payments[op.payment].order;
    if ok && db.orders[o].status == PendingPayment {
      PayMoves(db, o, k);
      StatusKeeps(db, PayOrder(db, o, k), o, Paid, k);
    }
  }

  lemma SucceededStep(k: nat, op: Op, db: Db, ok: bool)
    requires DbInv(db) && PlainInv(k, op, db) && OnSucceeded(op) && !op.PayCas?
    ensures Kept(k, db, NextSucceeded(k, op, db, ok))
  {
    hide DbInv, Evolves;
    StaysPut(k, db);
    match op
    case SucceededEvent(i) =>
      var row := RowOfIntent(db.payments, i);
      if row.Some? { RowOk(db, row.value); }
    case LogPurchases(p) =>
      if ok { PurchaseKeeps(db, db.payments[p].order, k); }
    case PayRead(p) =>
    case RecordSucceeded(p, live) =>
      if ok { PaymentKeeps(db, p, Succeeded, k); }
    case Announce(p) => GrowsKeeps(db, db.(announced := db.announced + [p]), k);
  }

  lemma FailedStep(k: nat, op: Op, db: Db, ok: bool)
    requires DbInv(db) && OnFailed(op) && PlainInv(k, op, db)
    ensures Kept(k, db, NextFailed(op, db, ok))
  {
    hide DbInv, Evolves;
    StaysPut(k, db);
    match op
    case FailedEvent(i) =>
      var row := RowOfIntent(db.payments, i);
      if row.Some? { RowOk(db, row.value); }
    case RecordFailed(p) =>
      if ok { PaymentKeeps(db, p, Failed, k); }
  }

  lemma ReconcileStep(k: nat, op: Op, db: Db, ok: bool)
    requires DbInv(db) && OnReconcile(op) && PlainInv(k, op, db)
    ensures Kept(k, db, NextReconcile(op, db, ok))
  {
    hide DbInv, Evolves;
    StaysPut(k, db);
    if op.ReconcileStart? {
      var row := Latest(db.payments, op.order);
      if row.Some? { RowOk(db, row.value); }
    }
  }

  lemma ReapStep(k: nat, op: Op, db: Db, ok: bool)
    requires DbInv(db) && op.ReapStart? && PlainInv(k, op, db)
    ensures Kept(k, db, NextReap(op, db, ok))
  {
    hide DbInv, Evolves;
    StaysPut(k, db);
    var listed := PendingIntents(db.payments, op.order);
    forall j | 0 <= j < |listed| ensures listed[j] < |db.intents| {
      assert listed[j] in listed;
      PendingIntentsListed(db.payments, op.order, listed[j]);
      var q :| 0 <= q < |db.payments| && db.payments[q] == Payment(op.order, listed[j], Pending);
      RowOk(db, q);
    }
  }

  lemma VoidCallStep(k: nat, op: Op, db: Db, ok: bool)
    requires DbInv(db) && op.Void? && PlainInv(k, op, db)
    ensures Kept(k, db, NextReap(op, db, ok))
  {
    hide DbInv, Evolves;
    StaysPut(k, db);
    var i := op.listed[op.next];
    if !Terminal(db.intents[i].status) && ok {
      IntentKeeps(db, i, IntentCanceled, k);
      EvolvesVoided(db, SetIntent(db, i, IntentCanceled), k, op.listed, op.next);
    }
  }

  lemma VoidCheckStep(k: nat, op: Op, db: Db, ok: bool)
    requires DbInv(db) && op.VoidCheck? && PlainInv(k, op, db)
    ensures Kept(k, db, NextReap(op, db, ok))
  {
    hide DbInv, Evolves;
    var db' := NextReap(op, db, ok).db;
    GrowsKeeps(db, db', k);
    EvolvesVoided(db, db', k, op.listed, op.next);
  }

  lemma VoidRecordStep(k: nat, op: Op, db: Db, ok: bool)
    requires DbInv(db) && op.VoidRecord? && PlainInv(k, op, db)
    ensures Kept(k, db, NextReap(op, db, ok))
  {
    hide DbInv, Evolves;
    StaysPut(k, db);
    var i := op.listed[op.next];
    var row := RowOfIntent(db.payments, i);
    assert Voided(db, i);
    if ok && row.Some? && db.payments[row.value].status == Pending {
      PaymentKeeps(db, row.value, CancelledPayment, k);
      EvolvesVoided(db, CancelRow(db, i), k, op.listed, op.next + 1);
    }
  }

  lemma IntentRowStep(k: nat, op: Op, db: Db, ok: bool)
    requires DbInv(db) && PlainInv(k, op, db) && op.IntentRow?
    ensures Kept(k, db, NextIntent(op, db, ok))
  {
    hide DbInv, Evolves;
    StaysPut(k, db);
    if ok && RowOfIntent(db.payments, op.intent).None? {
      NoRowOfIntent(db.payments, op.intent);
      GrowsKeeps(db, NextIntent(op, db, ok).db, k);
    }
  }

  lemma IntentStep(k: nat, op: Op, db: Db, ok: bool)
    requires DbInv(db) && PlainInv(k, op, db) && OnIntent(op) && !op.IntentRow?
    ensures Kept(k, db, NextIntent(op, db, ok))
  {
    hide DbInv, Evolves;
    StaysPut(k, db);
    if op.IntentReuse? {
      var row := Latest(db.payments, op.order);
      if row.Some? { RowOk(db, row.value); }
    } else if op.IntentNew? && ok {
      GrowsKeeps(db, NextIntent(op, db, ok).db, k);
    }
  }

  lemma OrderStep(k: nat, op: Op, db: Db, ok: bool)
    requires DbInv(db) && PlainInv(k, op, db) && OnOrder(op)
    ensures Kept(k, db, NextOrder(op, db, ok))
  {
    if op.EditForward? {
      EditStep(k, op, db, ok);
    } else if op.Checkout? && ok && AcceptsAll(db.products, op.lines) {
      PlaceOrderKeeps(db, op.lines, k);
    }
  }

  lemma PlainKeeps(k: nat, op: Op, db: Db, ok: bool)
    requires DbInv(db) && PlainInv(k, op, db) && !op.IntentFirst?
    ensures Kept(k, db, NextPlain(k, op, db, ok))
  {
    hide DbInv, Evolves, PlainInv, Kept;
    if OnOrder(op) { OrderStep(k, op, db, ok); }
    else if op.Release? { ReleaseStep(k, op, db, ok); }
    else if OnRefund(op) { RefundStep(k, op, db, ok); }
    else if op.PayCas? { PayCasStep(k, op, db, ok); }
    else if OnSucceeded(op) { SucceededStep(k, op, db, ok); }
    else if OnFailed(op) { FailedStep(k, op, db, ok); }
    else if OnReconcile(op) { ReconcileStep(k, op, db, ok); }
    else if op.ReapStart? { ReapStep(k, op, db, ok); }
    else if op.Void? { VoidCallStep(k, op, db, ok); }
    else if op.VoidCheck? { VoidCheckStep(k, op, db, ok); }
    else if op.VoidRecord? { VoidRecordStep(k, op, db, ok); }
    else if op.IntentRow? { IntentRowStep(k, op, db, ok); }
    else { IntentStep(k, op, db, ok); }
  }

  /** A reconcile stays a reconcile until it is done, and nothing else starts one inside an operation. */
  lemma InnerStays(k: nat, op: Op, db: Db, ok: bool)
    requires !op.IntentFirst?
    ensures var m := NextPlain(k, op, db, ok);
            && (Reconciling(op) ==> m.op == Done || Reconciling(m.op))
            && (m.op.IntentFirst? ==>
                  op.IntentStart? && m.op.inner == ReconcileStart(m.op.order) && m.op.order < |m.db.orders|)
  {
  }

  lemma NestedKeeps(k: nat, op: Op, db: Db, ok: bool)
    requires DbInv(db) && op.IntentFirst? && OpInv(k, op, db)
    ensures var m := Next(k, op, db, ok); DbInv(m.db) && Evolves(db, m.db, k) && OpInv(k, m.op, m.db)
  {
    hide DbInv, NextPlain;
    PlainKeeps(k, op.inner, db, ok);
    InnerStays(k, op.inner, db, ok);
  }

  lemma StepKeeps(k: nat, op: Op, db: Db, ok: bool)
    requires DbInv(db) && OpInv(k, op, db)
    ensures var m := Next(k, op, db, ok); DbInv(m.db) && Evolves(db, m.db, k) && OpInv(k, m.op, m.db)
  {
    hide DbInv, Evolves, NextPlain;
    if op.IntentFirst? {
      NestedKeeps(k, op, db, ok);
    } else {
      PlainKeeps(k, op, db, ok);
      InnerStays(k, op, db, ok);
    }
  }

  /** Any event keeps the invariant and lets the database evolve; Stripe's own moves count as nobody's step. */
  lemma EventKeeps(w: World, e: Event)
    requires Inv(w)
    ensures Inv(Apply(w, e))
    ensures Evolves(w.db, Apply(w, e).db, if e.Run? then e.k else |w.ops|)
  {
    var w' := Apply(w, e);
    var actor := if e.Run? then e.k else |w.ops|;
    match e
    case Spawn(op) =>
    case Run(k, ok) =>
      if k < |w.ops| {
        StepKeeps(k, w.ops[k], w.db, ok);
        forall j | 0 <= j < |w'.ops| ensures OpInv(j, w'.ops[j], w'.db) {
          if j != k { OthersStay(w.db, w'.db, k, j, w.ops[j]); }
        }
      }
    case Stripe(i, st) =>
      if i < |w.db.intents| && !Terminal(w.db.intents[i].status) {
        IntentKeeps(w.db, i, st, actor);
        forall j | 0 <= j < |w'.ops| ensures OpInv(j, w'.ops[j], w'.db) {
          OthersStay(w.db, w'.db, actor, j, w.ops[j]);
        }
      }
  }

  /** The invariant holds in every reachable state, whatever the interleaving and wherever operations stop. */
  lemma {:induction false} RunKeeps(w: World, es: seq<Event>)
    requires Inv(w)
    ensures Inv(RunAll(w, es))
  {
    if es != [] {
      RunKeeps(w, es[..|es| - 1]);
      EventKeeps(RunAll(w, es[..|es| - 1]), es[|es| - 1]);
    }
  }
}
