/**
 What every kind of request comes to when nothing disturbs it, status by status: which
 rows it changes, and that it changes nothing else.
 */
module ShopOutcomes {
  import opened Wrappers
  import opened Stock
  import opened ShopState
  import opened Operations
  import opened ShopInvariant
  import opened ShopRecovery
  import opened ShopDelivery
  import opened ShopIntents
  import opened ShopCounts
  import opened ShopReopening

  // ---------- checkout ----------

  /** A checkout places its order, pending and with the lines of the cart, exactly when every line fits. */
  lemma CheckoutOutcome(k: nat, db: Db, lines: seq<Line>, oks: seq<bool>)
    requires ValidCart(lines) && oks != [] && oks[0]
    ensures var m := Solo(k, Checkout(lines), db, oks);
            && m.op == Done
            && if Fits(db.products, lines)
               then Taken(db.products, m.db.products, lines)
                    && m.db == db.(products := m.db.products, orders := db.orders + [Order(lines, PendingPayment)])
               else m.db == db
  {
    var m := Next(k, Checkout(lines), db, true);
    assert Solo(k, Checkout(lines), db, oks) == Solo(k, Done, m.db, oks[1..]);
    DoneStays(k, m.db, oks[1..]);
    DeductTaken(db.products, lines);
    FitsIff(db.products, lines);
  }

  // ---------- what a release leaves ----------

  /** The order has left for `to`, each of its products is up by the quantity of its item, and nothing else changed. */
  predicate ReleasedTo(db: Db, db': Db, o: nat, to: OrderStatus) {
    && o < |db.orders|
    && db' == db.(products := db'.products, orders := db.orders[o := Order(db.orders[o].items, to)])
    && Taken(db'.products, db.products, db.orders[o].items)
  }

  lemma ReleaseIs(db: Db, o: nat, to: OrderStatus)
    requires o < |db.orders| && ValidCart(db.orders[o].items)
    ensures ReleasedTo(db, ReleaseOrder(db, o, to, db.orders[o].items), o, to)
  {
    RestockTakenBack(db.products, db.orders[o].items);
  }

  lemma ItemsKnown(db: Db, o: nat)
    requires DbInv(db) && o < |db.orders|
    ensures ValidCart(db.orders[o].items)
  {
    assert OrderOk(db, o);
  }

  // ---------- cancels and refunds ----------

  lemma PlainRelease(k: nat, db: Db, o: nat, target: OrderStatus, reason: Reason, oks: seq<bool>)
    requires DbInv(db) && o < |db.orders| && !reason.ByReaper? && AllOk(oks) && |oks| >= 2
    ensures var m := Solo(k, ReadItems(o, db.orders[o].status, target, reason), db, oks);
            m.op == Done && ReleasedTo(db, m.db, o, target)
  {
    hide DbInv, NextRefund, NextSucceeded, NextFailed, NextReconcile, NextReap, NextIntent, ReleasedTo;
    var release := Release(o, db.orders[o].items, db.orders[o].status, target, reason);
    assert Solo(k, ReadItems(o, db.orders[o].status, target, reason), db, oks) == Solo(k, release, db, oks[1..]);
    DoneStays(k, NextRelease(release, db, true).db, oks[1..][1..]);
    ItemsKnown(db, o);
    ReleaseIs(db, o, target);
  }

  /** The newest payment row of the order says that its charge went through, or was refunded already. */
  predicate Reversible(db: Db, o: nat) {
    var row := Latest(db.payments, o);
    row.Some? && (db.payments[row.value].status == Succeeded || db.payments[row.value].status == RefundedPayment)
  }

  /** Its newest row says refunded, Stripe's ledger has the refund, and the order is refunded and back on the shelf. */
  predicate PaidBackAndReleased(db: Db, db': Db, o: nat) {
    Latest(db.payments, o).Some?
    && var p := Latest(db.payments, o).value;
       ReleasedTo(db.(payments := db.payments[p := Payment(o, db.payments[p].intent, RefundedPayment)],
                      refunds := db.refunds[p := db.payments[p].intent]), db', o, RefundedOrder)
  }

  lemma RefundComesTo(k: nat, start: Op, db: Db, o: nat, oks: seq<bool>)
    requires DbInv(db) && o < |db.orders| && PostPayment(db.orders[o].status) && Starts(start, db, o)
    requires AllOk(oks) && |oks| >= 6
    ensures var m := Solo(k, start, db, oks);
            m.op == Done && if Reversible(db, o) then PaidBackAndReleased(db, m.db, o) else m.db == db
  {
    hide DbInv, Solo, Latest, Restock, Attempts, Taken, Reached;
    ItemsKnown(db, o);
    var row := Latest(db.payments, o);
    if row.Some? && db.payments[row.value].status == Succeeded {
      NoAttempts(k, start, db);
      RefundConverges(k, start, db, o, row.value, [], oks);
      ReleaseIs(db.(payments := db.payments[row.value := Payment(o, db.payments[row.value].intent, RefundedPayment)],
                    refunds := db.refunds[row.value := db.payments[row.value].intent]), o, RefundedOrder);
    } else if row.Some? && db.payments[row.value].status == RefundedPayment {
      AlreadyRefunded(k, start, db, o, row.value, oks);
      ReleaseIs(db, o, RefundedOrder);
      RefundedRow(db, row.value);
    } else {
      NotRefundable(k, start, db, o, oks);
    }
  }

  lemma RefundedRow(db: Db, p: nat)
    requires DbInv(db) && p < |db.payments| && db.payments[p].status == RefundedPayment
    ensures db.refunds[p := db.payments[p].intent] == db.refunds
  {
    assert PaymentOk(db, p);
    assert RefundOk(db, p);
  }

  lemma StartRefused(k: nat, start: Op, db: Db, oks: seq<bool>)
    requires oks != [] && Next(k, start, db, oks[0]) == Moved(Done, db)
    ensures Solo(k, start, db, oks) == Moved(Done, db)
  {
    DoneStays(k, db, oks[1..]);
  }

  /**
   A user's cancel, by the status of the order: a pending one is cancelled, a paid one is
   refunded if its newest row can be, and every other is left alone.
   */
  lemma CancelOutcome(k: nat, db: Db, o: nat, oks: seq<bool>)
    requires DbInv(db) && AllOk(oks) && |oks| >= 6
    ensures var m := Solo(k, CancelStart(o), db, oks);
            && m.op == Done
            && if o < |db.orders| && db.orders[o].status == PendingPayment then ReleasedTo(db, m.db, o, Cancelled)
               else if o < |db.orders| && db.orders[o].status == Paid && Reversible(db, o)
               then PaidBackAndReleased(db, m.db, o)
               else m.db == db
  {
    hide DbInv, ReleasedTo, PaidBackAndReleased, Reversible, NextRefund, NextSucceeded, NextFailed, NextReconcile, NextReap, NextIntent;
    if o < |db.orders| && db.orders[o].status == PendingPayment {
      assert Solo(k, CancelStart(o), db, oks) == Solo(k, ReadItems(o, PendingPayment, Cancelled, ByCancel), db, oks[1..]);
      PlainRelease(k, db, o, Cancelled, ByCancel, oks[1..]);
    } else if o < |db.orders| && db.orders[o].status == Paid {
      RefundComesTo(k, CancelStart(o), db, o, oks);
    } else {
      StartRefused(k, CancelStart(o), db, oks);
    }
  }

  /** An admin's refund: the same for a paid, processing, shipped or delivered order, and nothing for any other. */
  lemma RefundOutcome(k: nat, db: Db, o: nat, oks: seq<bool>)
    requires DbInv(db) && AllOk(oks) && |oks| >= 6
    ensures var m := Solo(k, RefundStart(o), db, oks);
            && m.op == Done
            && if o < |db.orders| && db.orders[o].status in {Paid, Processing, Shipped, Delivered} && Reversible(db, o)
               then PaidBackAndReleased(db, m.db, o)
               else m.db == db
  {
    hide DbInv, PaidBackAndReleased, Reversible, NextRefund, NextSucceeded, NextFailed, NextReconcile, NextReap, NextIntent;
    if o < |db.orders| && PostPayment(db.orders[o].status) {
      RefundComesTo(k, RefundStart(o), db, o, oks);
    } else {
      StartRefused(k, RefundStart(o), db, oks);
    }
  }

  // ---------- admin edits ----------

  /** Only the status of the order changed, and a note is kept of a released order that it brought back. */
  predicate StatusOnly(db: Db, db': Db, o: nat, to: OrderStatus) {
    && o < |db.orders|
    && db' == db.(orders := db.orders[o := Order(db.orders[o].items, to)], notes := db'.notes)
    && db'.notes == if db.orders[o].status in {PaymentFailed, Cancelled, RefundedOrder}
                    then db.notes.(revived := db.notes.revived + [o]) else db.notes
  }

  /**
   An admin edit, by the status asked for: cancelled releases a pending order and refuses
   any other; processing, shipped and delivered change exactly the status, whatever it
   was; every other status is refused.
   */
  lemma EditOutcome(k: nat, db: Db, o: nat, target: OrderStatus, oks: seq<bool>)
    requires DbInv(db) && AllOk(oks) && |oks| >= 3
    ensures var m := Solo(k, EditStart(o, target), db, oks);
            && m.op == Done
            && if o < |db.orders| && target == Cancelled && db.orders[o].status == PendingPayment
               then ReleasedTo(db, m.db, o, Cancelled)
               else if o < |db.orders| && target in {Processing, Shipped, Delivered} then StatusOnly(db, m.db, o, target)
               else m.db == db
  {
    hide DbInv, ReleasedTo, NextRefund, NextSucceeded, NextFailed, NextReconcile, NextReap, NextIntent;
    if o < |db.orders| && target == Cancelled && db.orders[o].status == PendingPayment {
      assert Solo(k, EditStart(o, target), db, oks)
          == Solo(k, ReadItems(o, PendingPayment, Cancelled, ByAdmin), db, oks[1..]);
      PlainRelease(k, db, o, Cancelled, ByAdmin, oks[1..]);
    } else if o < |db.orders| && target in {Processing, Shipped, Delivered} {
      var edit := EditForward(o, db.orders[o].status, target);
      assert Solo(k, EditStart(o, target), db, oks) == Solo(k, edit, db, oks[1..]);
      DoneStays(k, MoveForward(db, o, target), oks[1..][1..]);
    } else {
      StartRefused(k, EditStart(o, target), db, oks);
    }
  }

  // ---------- events ----------

  /** What paying for row p has made of the database, by the status of its order. */
  predicate PaidAs(db: Db, db': Db, p: nat, k: nat) {
    p < |db.payments| && db.payments[p].order < |db.orders|
    && var o, i := db.payments[p].order, db.payments[p].intent;
       var recorded := db.payments[p := Payment(o, i, Succeeded)];
       if db.orders[o].status == PendingPayment then
         db' == db.(orders := db.orders[o := Order(db.orders[o].items, Paid)], payments := recorded,
                    purchases := db.purchases + [o], announced := db.announced + [p],
                    notes := db.notes.(markedPaid := db.notes.markedPaid[o := k]))
       else if db.orders[o].status in {Paid, Processing, Shipped, Delivered} then
         db' == db.(payments := recorded, announced := db.announced + [p])
       else BackToPayer(db, db', p)
  }

  /** The charge of a dead order: its row and its refund if it is the newest, and otherwise the newest row's if that says succeeded. */
  predicate BackToPayer(db: Db, db': Db, p: nat)
    requires p < |db.payments|
  {
    Latest(db.payments, db.payments[p].order).Some?
    && var o, q := db.payments[p].order, Latest(db.payments, db.payments[p].order).value;
       var recorded := db.payments[p := Payment(o, db.payments[p].intent, Succeeded)];
       if q == p || db.payments[q].status == Succeeded then
         db' == db.(payments := recorded[q := Payment(o, db.payments[q].intent, RefundedPayment)],
                    refunds := db.refunds[q := db.payments[q].intent])
       else db' == db.(payments := recorded)
  }

  lemma PaidForIs(db: Db, p: nat, k: nat)
    requires Paying(db, p) && db.payments[p].order < |db.orders|
    ensures PaidAs(db, PaidFor(db, p, k), p, k)
  {
    hide DbInv, Latest;
    var o := db.payments[p].order;
    LatestIgnoresStatus(db.payments, p, Succeeded, o);
    LatestIsNewest(db.payments, o);
    LedgerKnown(db, p);
    if Latest(db.payments, o).Some? { LedgerKnown(db, Latest(db.payments, o).value); }
  }

  /**
   An undisturbed delivery of the succeeded event: nothing for an unknown intent or a row
   that says succeeded, and otherwise what the status of the order calls for.
   */
  lemma EventOutcome(k: nat, db: Db, i: nat, oks: seq<bool>)
    requires DbInv(db) && i < |db.intents| && db.intents[i].status == IntentSucceeded && AllOk(oks) && |oks| >= 7
    ensures var m, row := Solo(k, SucceededEvent(i), db, oks), RowOfIntent(db.payments, i);
            && m.op == Done
            && if row.None? || db.payments[row.value].status == Succeeded then m.db == db
               else PaidAs(db, m.db, row.value, k)
  {
    hide DbInv, Solo, PaidAs, PaidFor;
    var row := RowOfIntent(db.payments, i);
    if row.None? {
      UnknownEvent(k, db, i, oks);
    } else {
      DeliveryExact(k, db, row.value, oks);
      PaidForIs(db, row.value, k);
    }
  }

  lemma UnknownEvent(k: nat, db: Db, i: nat, oks: seq<bool>)
    requires RowOfIntent(db.payments, i).None? && oks != []
    ensures Solo(k, SucceededEvent(i), db, oks) == Moved(Done, db)
    ensures Solo(k, FailedEvent(i), db, oks) == Moved(Done, db)
  {
    DoneStays(k, db, oks[1..]);
  }

  /** The row says failed, and a pending order is released. */
  predicate FailedAs(db: Db, db': Db, p: nat) {
    p < |db.payments| && db.payments[p].order < |db.orders|
    && var o := db.payments[p].order;
       var failed := db.(payments := db.payments[p := Payment(o, db.payments[p].intent, Failed)]);
       if db.orders[o].status == PendingPayment then ReleasedTo(failed, db', o, PaymentFailed) else db' == failed
  }

  lemma FailedIs(db: Db, p: nat)
    requires DbInv(db) && p < |db.payments| && db.payments[p].order < |db.orders|
    ensures FailedAs(db, FailedDb(db, p, 4), p)
  {
    hide DbInv, ReleasedTo;
    ItemsKnown(db, db.payments[p].order);
    ReleaseIs(SetPayment(db, p, Failed), db.payments[p].order, PaymentFailed);
  }

  /** An undisturbed failed event: nothing for an unknown intent or a row that says failed. */
  lemma FailureOutcome(k: nat, db: Db, i: nat, oks: seq<bool>)
    requires DbInv(db) && AllOk(oks) && |oks| >= 4
    ensures var m, row := Solo(k, FailedEvent(i), db, oks), RowOfIntent(db.payments, i);
            && m.op == Done
            && if row.None? || db.payments[row.value].status == Failed then m.db == db else FailedAs(db, m.db, row.value)
  {
    hide DbInv, FailedAs, FailedDb, NextOrder, NextRelease, NextRefund, NextSucceeded, NextReconcile, NextReap, NextIntent;
    var row := RowOfIntent(db.payments, i);
    if row.None? {
      UnknownEvent(k, db, i, oks);
    } else if db.payments[row.value].status == Failed {
      StartRefused(k, FailedEvent(i), db, oks);
    } else {
      RowOk(db, row.value);
      assert Solo(k, FailedEvent(i), db, oks) == Solo(k, RecordFailed(row.value), db, oks[1..]);
      FailingPart(k, db, row.value, oks[1..]);
      FailedIs(db, row.value);
    }
  }

  // ---------- reconciles ----------

  /** What a reconcile has made of the database, by the newest row of the order and Stripe's state of its intent. */
  predicate ReconciledAs(db: Db, db': Db, o: nat, k: nat) {
    var row := Latest(db.payments, o);
    if row.None? || db.payments[row.value].status != Pending then db' == db
    else
      var p := row.value;
      db.payments[p].intent < |db.intents|
      && match db.intents[db.payments[p].intent].status
         case IntentSucceeded => PaidAs(db, db', p, k)
         case IntentCanceled => FailedAs(db, db', p)
         case RequiresPaymentMethod(declined) => if declined then FailedAs(db, db', p) else db' == db
         case RequiresConfirmation => db' == db
         case RequiresAction => db' == db
         case InProcess => db' == db
  }

  lemma CheckPart(k: nat, db: Db, p: nat, oks: seq<bool>)
    requires DbInv(db) && p < |db.payments| && AllOk(oks) && |oks| >= 7
    requires db.payments[p].intent < |db.intents| && db.payments[p].order < |db.orders|
    ensures var m, st := Solo(k, ReconcileCheck(p), db, oks), db.intents[db.payments[p].intent].status;
            && m.op == Done
            && if st == IntentSucceeded then PaidAs(db, m.db, p, k)
               else if st == IntentCanceled || st == RequiresPaymentMethod(true) then FailedAs(db, m.db, p)
               else m.db == db
  {
    hide DbInv, FailedAs, FailedDb, PaidAs, PaidFor;
    hide NextOrder, NextRelease, NextRefund, NextSucceeded, NextFailed, NextReap, NextIntent;
    var st := db.intents[db.payments[p].intent].status;
    if st == IntentSucceeded {
      assert Solo(k, ReconcileCheck(p), db, oks) == Solo(k, PayCas(p), db, oks[1..]);
      PayExact(k, db, p, oks[1..]);
      PaidForIs(db, p, k);
    } else if st == IntentCanceled || st == RequiresPaymentMethod(true) {
      assert Solo(k, ReconcileCheck(p), db, oks) == Solo(k, RecordFailed(p), db, oks[1..]);
      FailingPart(k, db, p, oks[1..]);
      FailedIs(db, p);
    } else {
      DoneStays(k, db, oks[1..]);
    }
  }

  lemma ReconcileOutcome(k: nat, db: Db, o: nat, oks: seq<bool>)
    requires DbInv(db) && AllOk(oks) && |oks| >= 8
    ensures Solo(k, ReconcileStart(o), db, oks).op == Done
    ensures ReconciledAs(db, Solo(k, ReconcileStart(o), db, oks).db, o, k)
  {
    hide DbInv, FailedAs, PaidAs, NextOrder, NextRelease, NextRefund, NextSucceeded, NextFailed, NextReap, NextIntent;
    var row := Latest(db.payments, o);
    if row.Some? && db.payments[row.value].status == Pending {
      RowOk(db, row.value);
      assert Solo(k, ReconcileStart(o), db, oks) == Solo(k, ReconcileCheck(row.value), db, oks[1..]);
      CheckPart(k, db, row.value, oks[1..]);
    } else {
      StartRefused(k, ReconcileStart(o), db, oks);
    }
  }

  // ---------- one order of the reaper ----------

  /** The first n of these intents are canceled at Stripe, and their pending rows marked. */
  predicate VoidedFirst(db: Db, voided: Db, listed: seq<nat>, n: nat)
    requires n <= |listed|
  {
    && voided == db.(intents := voided.intents, payments := voided.payments)
    && |voided.intents| == |db.intents| && |voided.payments| == |db.payments|
    && (forall i :: 0 <= i < |db.intents| ==>
          voided.intents[i] == Intent(db.intents[i].order, if i in listed[..n] then IntentCanceled else db.intents[i].status))
    && forall p :: 0 <= p < |db.payments| ==>
         var row := db.payments[p];
         voided.payments[p] == if row.intent in listed[..n] && row.status == Pending
                               then Payment(row.order, row.intent, CancelledPayment) else row
  }

  lemma VoidedIs(db: Db, listed: seq<nat>, n: nat)
    requires n <= |listed| && (forall j :: 0 <= j < |listed| ==> listed[j] < |db.intents|) && DistinctIntents(db)
    ensures VoidedFirst(db, VoidedDb(db, listed, n), listed, n)
  {
    hide VoidedDb;
    VoidedRows(db, listed, n);
    forall i | 0 <= i < |db.intents|
      ensures VoidedDb(db, listed, n).intents[i]
           == Intent(db.intents[i].order, if i in listed[..n] then IntentCanceled else db.intents[i].status)
    {
      VoidedIntents(db, listed, n, i);
    }
  }

  /** The canceller works through its list up to the first intent that has succeeded. */
  lemma {:induction false} VoidUpTo(k: nat, db: Db, o: nat, listed: seq<nat>, n: nat, oks: seq<bool>)
    returns (m: nat, rest: seq<bool>)
    requires (forall j :: 0 <= j < |listed| ==> listed[j] < |db.intents|) && Distinct(listed) && n <= |listed|
    requires AllOk(oks) && |oks| >= 9 + 3 * (|listed| - n)
    ensures n <= m <= |listed| && AllOk(rest) && |rest| >= 8
    ensures forall j :: n <= j < m ==> db.intents[listed[j]].status != IntentSucceeded
    ensures m < |listed| ==> db.intents[listed[m]].status == IntentSucceeded
    ensures Solo(k, VoidNext(o, listed, n), VoidedDb(db, listed, n), oks)
         == Solo(k, if m == |listed| then ReadItems(o, PendingPayment, Cancelled, ByReaper(listed)) else ReconcileStart(o),
                 VoidedDb(db, listed, m), rest)
    decreases |listed| - n
  {
    hide Solo, CancelRow, SetIntent;
    if n == |listed| {
      m, rest := n, oks;
    } else {
      VoidedIntents(db, listed, n, listed[n]);
      var db', more := VoidPart(k, VoidedDb(db, listed, n), o, listed, n, oks);
      if db.intents[listed[n]].status == IntentSucceeded {
        m, rest := n, more;
      } else {
        m, rest := VoidUpTo(k, db, o, listed, n + 1, more);
      }
    }
  }

  lemma ReaperRelease(k: nat, db: Db, o: nat, listed: seq<nat>, oks: seq<bool>)
    requires o < |db.orders| && ValidCart(db.orders[o].items) && AllOk(oks) && |oks| >= 2
    ensures var m := Solo(k, ReadItems(o, PendingPayment, Cancelled, ByReaper(listed)), db, oks);
            && m.op == Done
            && if db.orders[o].status == PendingPayment
               then ReleasedTo(db.(notes := db.notes.(reaped := db.notes.reaped[o := listed])), m.db, o, Cancelled)
               else m.db == db
  {
    hide NextRefund, NextSucceeded, NextFailed, NextReconcile, NextReap, NextIntent, Taken;
    var release := Release(o, db.orders[o].items, PendingPayment, Cancelled, ByReaper(listed));
    assert Solo(k, ReadItems(o, PendingPayment, Cancelled, ByReaper(listed)), db, oks) == Solo(k, release, db, oks[1..]);
    DoneStays(k, NextRelease(release, db, true).db, oks[1..][1..]);
    ReleaseIs(db, o, Cancelled);
  }

  /**
   One order of the reaper, undisturbed: every listed intent up to the first succeeded
   one is canceled at Stripe and its row marked. With none of them succeeded a pending
   order is cancelled and its items are back; otherwise the order is reconciled instead.
   */
  lemma ReapOutcome(k: nat, db: Db, o: nat, oks: seq<bool>) returns (n: nat, voided: Db)
    requires DbInv(db) && o < |db.orders| && AllOk(oks) && |oks| >= 10 + 3 * |PendingIntents(db.payments, o)|
    ensures var m, listed := Solo(k, ReapStart(o), db, oks), PendingIntents(db.payments, o);
            && m.op == Done && n <= |listed| && VoidedFirst(db, voided, listed, n)
            && (forall j :: 0 <= j < n ==> listed[j] < |db.intents| && db.intents[listed[j]].status != IntentSucceeded)
            && if n < |listed| then
                 listed[n] < |db.intents| && db.intents[listed[n]].status == IntentSucceeded && ReconciledAs(voided, m.db, o, k)
               else if db.orders[o].status == PendingPayment then
                 ReleasedTo(voided.(notes := db.notes.(reaped := db.notes.reaped[o := listed])), m.db, o, Cancelled)
               else m.db == voided
  {
    hide DbInv, Solo, PendingIntents, VoidedDb, ReleasedTo, ReconciledAs;
    var listed := PendingIntents(db.payments, o);
    ListedKnown(db, o);
    Unique(db);
    FirstStep(k, db, o, oks);
    Unvoided(db, listed);
    var rest;
    n, rest := VoidUpTo(k, db, o, listed, 0, oks[1..]);
    voided := VoidedDb(db, listed, n);
    VoidedIs(db, listed, n);
    if n < |listed| {
      VoidedInv(k, db, listed, n);
      ReconcileOutcome(k, voided, o, rest);
    } else {
      ItemsKnown(db, o);
      ReaperRelease(k, voided, o, listed, rest);
    }
  }

  lemma {:induction false} VoidedInv(k: nat, db: Db, listed: seq<nat>, n: nat)
    requires DbInv(db) && InRange(db, listed) && Distinct(listed) && n <= |listed|
    requires forall j :: 0 <= j < n ==> db.intents[listed[j]].status != IntentSucceeded
    ensures DbInv(VoidedDb(db, listed, n))
  {
    hide DbInv, CancelRow;
    if n > 0 {
      VoidedInv(k, db, listed, n - 1);
      VoidedIntents(db, listed, n - 1, listed[n - 1]);
      VoidedKeeps(k, VoidedDb(db, listed, n - 1), VoidedDb(db, listed, n), listed, listed[n - 1]);
    }
  }

  // ---------- requests for an intent ----------

  /**
   An undisturbed request for an intent of a pending order: with no pending newest row one
   new intent and its row; with one, what the reconcile inside the request makes of it. It
   does nothing for any other order.
   */
  lemma RequestOutcome(k: nat, db: Db, o: nat, oks: seq<bool>)
    requires DbInv(db) && AllOk(oks) && |oks| >= 11
    ensures var m, row := Solo(k, IntentStart(o), db, oks), Latest(db.payments, o);
            && m.op == Done
            && if o >= |db.orders| || db.orders[o].status != PendingPayment then m.db == db
               else if row.None? || db.payments[row.value].status != Pending then
                 m.db == db.(intents := db.intents + [Intent(o, RequiresPaymentMethod(false))],
                             payments := db.payments + [Payment(o, |db.intents|, Pending)])
               else ReconciledAs(db, m.db, o, k)
  {
    hide DbInv, Solo, Latest, FailedDb, FailedAs;
    if o < |db.orders| && db.orders[o].status == PendingPayment {
      CreateIntentOutcome(k, db, o, oks);
      var row := Latest(db.payments, o);
      if row.Some? {
        RowOk(db, row.value);
        FailedIs(db, row.value);
      }
    } else {
      NothingAsked(k, db, o, oks);
    }
  }

  // ---------- single steps ----------

  /**
   The steps that answer a request with yes: the one that adds the order, takes the order
   out of the status it came from, or adds the payment row, and the check that finds the
   intent still open. No other step does.
   */
  lemma HitsExactly(k: nat, op: Op, db: Db, ok: bool)
    requires !op.IntentFirst?
    ensures var db' := NextPlain(k, op, db, ok).db;
            && (op.Checkout? ==> (Hits(op, db, ok) <==> |db'.orders| == |db.orders| + 1))
            && (op.Release? && op.from != op.target ==> (Hits(op, db, ok) <==> db'.orders != db.orders))
            && (op.EditForward? ==> (Hits(op, db, ok) <==> ok && op.order < |db.orders| && db.orders[op.order].status == op.from))
            && (op.IntentRow? ==> (Hits(op, db, ok) <==> |db'.payments| == |db.payments| + 1))
            && (op.IntentProbe? && op.payment < |db.payments| && db.payments[op.payment].intent < |db.intents| ==>
                  (Hits(op, db, ok) <==>
                     ok && db.intents[db.payments[op.payment].intent].status !in {IntentSucceeded, IntentCanceled}))
            && (Hits(op, db, ok) ==> op.Checkout? || op.Release? || op.EditForward? || op.IntentRow? || op.IntentProbe?)
  {
    hide NextRefund, NextSucceeded, NextFailed, NextReconcile, NextReap, Latest, RowOfIntent, Deduct, Restock, Accepts;
    if op.Release? && op.order < |db.orders| {
      assert db.orders[op.order := Order(db.orders[op.order].items, op.target)][op.order].status == op.target;
    }
  }

  /**
   A step that fails changes nothing and ends its operation. A failed purchase log goes on
   all the same, a confirmation is only logged when it fails, a refused void looks at the
   intent again, and a request for an intent falls back to the order it read and then to
   a new intent.
   */
  lemma FailureLeaves(k: nat, op: Op, db: Db)
    requires !op.IntentFirst?
    ensures var m := NextPlain(k, op, db, false);
            && m.db == (if op.Announce? then db.(announced := db.announced + [op.payment]) else db)
            && m.op == if op.LogPurchases? then RecordSucceeded(op.payment, true)
                       else if op.IntentReload? then IntentReuse(op.order)
                       else if op.IntentReuse? || op.IntentProbe? then IntentNew(op.order)
                       else if op.Void? && op.next < |op.listed| && op.listed[op.next] < |db.intents|
                               && db.intents[op.listed[op.next]].status in {IntentSucceeded, IntentCanceled, InProcess}
                       then VoidCheck(op.order, op.listed, op.next)
                       else Done
  {
  }

  /** In a reconcile inside a request, the request falls back to the order it read, but a failed refund or confirmation is only logged. */
  lemma FailureInside(k: nat, o: nat, inner: Op, db: Db)
    requires !inner.IntentFirst?
    ensures var m, next := Next(k, IntentFirst(o, inner), db, false), NextPlain(k, inner, db, false);
            && m.db == next.db
            && m.op == if next.op != Done then IntentFirst(o, next.op)
                       else if inner.RefundRead? || inner.RefundCall? || inner.RefundMark? || inner.Announce? then IntentReload(o)
                       else IntentReuse(o)
  {
    hide NextPlain;
  }
}
