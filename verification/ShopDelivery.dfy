/**
 Deliveries of the succeeded event, reconciles and failed events, one at a time: what
 each comes to for each kind of order, and what deliveries that stop and come again
 come to.
 */
module ShopDelivery {
  import opened Wrappers
  import opened ShopState
  import opened Operations
  import opened ShopInvariant
  import opened ShopRecovery

  predicate LiveOrder(db: Db, p: nat) {
    p < |db.payments| && db.payments[p].order < |db.orders| && PostPayment(db.orders[db.payments[p].order].status)
  }

  predicate PendingOrder(db: Db, p: nat) {
    p < |db.payments| && db.payments[p].order < |db.orders| && db.orders[db.payments[p].order].status == PendingPayment
  }

  /** Neither pending nor past payment: nothing of the order will be confirmed any more. */
  predicate Dead(db: Db, o: nat) {
    o < |db.orders| && !PostPayment(db.orders[o].status) && db.orders[o].status != PendingPayment
  }

  // ---------- one undisturbed delivery ----------

  /** Payment p is the row of a charged intent. */
  predicate Paying(db: Db, p: nat) {
    DbInv(db) && p < |db.payments| && Charged(db, db.payments[p].intent)
  }

  lemma RowIsUnique(db: Db, p: nat)
    requires DbInv(db) && p < |db.payments|
    ensures RowOfIntent(db.payments, db.payments[p].intent) == Some(p)
    ensures db.payments[p].order < |db.orders| && db.payments[p].intent < |db.intents|
  {
    assert PaymentOk(db, p);
    if RowOfIntent(db.payments, db.payments[p].intent).None? {
      NoRowOfIntent(db.payments, db.payments[p].intent);
    }
  }

  lemma RecordAndAnnounce(k: nat, db: Db, p: nat, oks: seq<bool>)
    requires p < |db.payments| && AllOk(oks) && |oks| >= 2
    ensures Solo(k, RecordSucceeded(p, true), db, oks)
         == Moved(Done, SetPayment(db, p, Succeeded).(announced := db.announced + [p]))
  {
    hide NextOrder, NextRelease, NextRefund, NextFailed, NextReconcile, NextReap, NextIntent;
    var recorded := SetPayment(db, p, Succeeded);
    assert Solo(k, RecordSucceeded(p, true), db, oks) == Solo(k, Announce(p), recorded, oks[1..]);
    DoneStays(k, recorded.(announced := db.announced + [p]), oks[1..][1..]);
  }

  /** The order pending: paid, logged, recorded and announced. */
  function Settled(db: Db, p: nat, k: nat): Db
    requires PendingOrder(db, p)
  {
    var o := db.payments[p].order;
    SetPayment(PayOrder(db, o, k), p, Succeeded).(purchases := db.purchases + [o], announced := db.announced + [p])
  }

  lemma PayPending(k: nat, db: Db, p: nat, oks: seq<bool>)
    requires PendingOrder(db, p) && AllOk(oks) && |oks| >= 4
    ensures Solo(k, PayCas(p), db, oks) == Moved(Done, Settled(db, p, k))
  {
    hide NextOrder, NextRelease, NextRefund, NextFailed, NextReconcile, NextReap, NextIntent;
    var o := db.payments[p].order;
    var paid := PayOrder(db, o, k);
    var logged := paid.(purchases := db.purchases + [o]);
    assert Solo(k, PayCas(p), db, oks) == Solo(k, LogPurchases(p), paid, oks[1..]);
    assert Solo(k, LogPurchases(p), paid, oks[1..]) == Solo(k, RecordSucceeded(p, true), logged, oks[1..][1..]);
    RecordAndAnnounce(k, logged, p, oks[1..][1..]);
  }

  lemma PayLive(k: nat, db: Db, p: nat, oks: seq<bool>)
    requires LiveOrder(db, p) && AllOk(oks) && |oks| >= 4
    ensures Solo(k, PayCas(p), db, oks) == Moved(Done, SetPayment(db, p, Succeeded).(announced := db.announced + [p]))
  {
    hide NextOrder, NextRelease, NextRefund, NextFailed, NextReconcile, NextReap, NextIntent;
    assert Solo(k, PayCas(p), db, oks) == Solo(k, PayRead(p), db, oks[1..]);
    assert Solo(k, PayRead(p), db, oks[1..]) == Solo(k, RecordSucceeded(p, true), db, oks[1..][1..]);
    RecordAndAnnounce(k, db, p, oks[1..][1..]);
  }

  /** What the automatic refund of a dead order makes of its newest row. */
  function AutoRefunded(db: Db, o: nat): Db {
    var row := Latest(db.payments, o);
    if row.Some? && db.payments[row.value].status == Succeeded
    then SetPayment(RefundCharge(db, row.value), row.value, RefundedPayment) else db
  }

  lemma RefundPart(k: nat, db: Db, o: nat, oks: seq<bool>)
    requires DbInv(db) && AllOk(oks) && |oks| >= 3
    ensures Solo(k, RefundRead(o, ThenNothing), db, oks) == Moved(Done, AutoRefunded(db, o))
  {
    hide DbInv, NextOrder, NextRelease, NextSucceeded, NextFailed, NextReconcile, NextReap, NextIntent;
    var row := Latest(db.payments, o);
    if row.Some? && db.payments[row.value].status == Succeeded {
      var q := row.value;
      ChargeAccepted(db, q);
      var charged := RefundCharge(db, q);
      assert Solo(k, RefundRead(o, ThenNothing), db, oks) == Solo(k, RefundCall(o, q, ThenNothing), db, oks[1..]);
      assert Solo(k, RefundCall(o, q, ThenNothing), db, oks[1..])
          == Solo(k, RefundMark(o, q, ThenNothing), charged, oks[1..][1..]);
      DoneStays(k, AutoRefunded(db, o), oks[1..][1..][1..]);
    } else {
      DoneStays(k, db, oks[1..]);
    }
  }

  /** Stripe accepts the refund of any succeeded row. */
  lemma ChargeAccepted(db: Db, q: nat)
    requires DbInv(db) && q < |db.payments| && db.payments[q].status == Succeeded
    ensures db.payments[q].intent < |db.intents| && RefundAccepted(db, q)
  {
    assert PaymentOk(db, q);
    assert forall x :: x in db.refunds ==> RefundOk(db, x);
  }

  /** The order dead: the charge is recorded and its refund attempted, through the newest row. */
  function Orphaned(db: Db, p: nat): Db
    requires p < |db.payments|
  {
    AutoRefunded(SetPayment(db, p, Succeeded), db.payments[p].order)
  }

  lemma DeadSteps(k: nat, db: Db, p: nat, oks: seq<bool>)
    requires p < |db.payments| && Dead(db, db.payments[p].order) && AllOk(oks) && |oks| >= 3
    ensures Solo(k, PayCas(p), db, oks)
         == Solo(k, RefundRead(db.payments[p].order, ThenNothing), SetPayment(db, p, Succeeded), oks[1..][1..][1..])
  {
    hide NextOrder, NextRelease, NextRefund, NextFailed, NextReconcile, NextReap, NextIntent;
    assert Solo(k, PayCas(p), db, oks) == Solo(k, PayRead(p), db, oks[1..]);
    assert Solo(k, PayRead(p), db, oks[1..]) == Solo(k, RecordSucceeded(p, false), db, oks[1..][1..]);
  }

  lemma PayDead(k: nat, db: Db, p: nat, oks: seq<bool>)
    requires Paying(db, p) && Dead(db, db.payments[p].order) && AllOk(oks) && |oks| >= 6
    ensures Solo(k, PayCas(p), db, oks) == Moved(Done, Orphaned(db, p))
  {
    hide DbInv, Solo, AutoRefunded;
    RowIsUnique(db, p);
    PaymentKeeps(db, p, Succeeded, k);
    DeadSteps(k, db, p, oks);
    RefundPart(k, SetPayment(db, p, Succeeded), db.payments[p].order, oks[1..][1..][1..]);
  }

  /** What paying for row p comes to, by the order it belongs to. */
  function PaidFor(db: Db, p: nat, k: nat): Db
    requires p < |db.payments| && db.payments[p].order < |db.orders|
  {
    if PendingOrder(db, p) then Settled(db, p, k)
    else if LiveOrder(db, p) then SetPayment(db, p, Succeeded).(announced := db.announced + [p])
    else Orphaned(db, p)
  }

  lemma PayExact(k: nat, db: Db, p: nat, oks: seq<bool>)
    requires Paying(db, p) && AllOk(oks) && |oks| >= 6
    ensures db.payments[p].order < |db.orders| && Solo(k, PayCas(p), db, oks) == Moved(Done, PaidFor(db, p, k))
  {
    hide DbInv, Solo, Orphaned, Settled;
    RowIsUnique(db, p);
    if PendingOrder(db, p) {
      PayPending(k, db, p, oks);
    } else if LiveOrder(db, p) {
      PayLive(k, db, p, oks);
    } else {
      PayDead(k, db, p, oks);
    }
  }

  /**
   One undisturbed delivery of the event of row p: nothing if the row says succeeded, and
   otherwise exactly what its order calls for.
   */
  lemma DeliveryExact(k: nat, db: Db, p: nat, oks: seq<bool>)
    requires Paying(db, p) && AllOk(oks) && |oks| >= 7
    ensures db.payments[p].order < |db.orders|
    ensures Solo(k, SucceededEvent(db.payments[p].intent), db, oks)
         == Moved(Done, if db.payments[p].status == Succeeded then db else PaidFor(db, p, k))
  {
    hide DbInv, PaidFor, NextOrder, NextRelease, NextRefund, NextFailed, NextReconcile, NextReap, NextIntent;
    RowIsUnique(db, p);
    var event := SucceededEvent(db.payments[p].intent);
    if db.payments[p].status == Succeeded {
      assert Solo(k, event, db, oks) == Solo(k, Done, db, oks[1..]);
      DoneStays(k, db, oks[1..]);
    } else {
      assert Solo(k, event, db, oks) == Solo(k, PayCas(p), db, oks[1..]);
      PayExact(k, db, p, oks[1..]);
    }
  }

  /** An undisturbed delivery announces its payment exactly when the row is not succeeded and the order not dead. */
  lemma AnnouncesIff(k: nat, db: Db, p: nat, oks: seq<bool>)
    requires Paying(db, p) && AllOk(oks) && |oks| >= 7
    ensures Solo(k, SucceededEvent(db.payments[p].intent), db, oks).db.announced
         == db.announced
            + if db.payments[p].status != Succeeded && !Dead(db, db.payments[p].order) then [p] else []
  {
    hide DbInv, Solo, Latest;
    DeliveryExact(k, db, p, oks);
    assert db.announced + [] == db.announced;
  }

  /** An undisturbed delivery to a pending order: paid, logged, recorded and announced, and nothing else. */
  lemma DeliverySettles(k: nat, db: Db, p: nat, oks: seq<bool>)
    requires Paying(db, p) && PendingOrder(db, p) && AllOk(oks) && |oks| >= 7
    ensures var o := db.payments[p].order;
            Solo(k, SucceededEvent(db.payments[p].intent), db, oks) == Moved(Done, db.(
              orders := db.orders[o := Order(db.orders[o].items, Paid)],
              payments := db.payments[p := db.payments[p].(status := Succeeded)],
              purchases := db.purchases + [o],
              announced := db.announced + [p],
              notes := db.notes.(markedPaid := db.notes.markedPaid[o := k])))
  {
    hide Solo;
    DeliveryExact(k, db, p, oks);
    assert PaymentOk(db, p);
  }

  /**
   The automatic refund: an undisturbed delivery to a dead order ends with its own row
   refunded, under one ledger entry, exactly when the row did not say succeeded yet and
   is the newest one of the order. A row that says succeeded stops the delivery at its
   check. Any other row than the newest stays succeeded, and the newest is refunded
   instead if it was succeeded, or nothing is.
   */
  lemma AutoRefundIff(k: nat, db: Db, p: nat, oks: seq<bool>)
    requires Paying(db, p) && Dead(db, db.payments[p].order) && AllOk(oks) && |oks| >= 7
    ensures var o := db.payments[p].order;
            var db' := Solo(k, SucceededEvent(db.payments[p].intent), db, oks).db;
            var q := Latest(db.payments, o);
            && q.Some? && p < |db'.payments|
            && (db'.payments[p].status == RefundedPayment <==> db.payments[p].status != Succeeded && q == Some(p))
            && db' == if db.payments[p].status == Succeeded then db
                      else if q == Some(p) then
                        db.(payments := db.payments[p := db.payments[p].(status := RefundedPayment)],
                            refunds := db.refunds[p := db.payments[p].intent])
                      else
                        var recorded := SetPayment(db, p, Succeeded);
                        if db.payments[q.value].status == Succeeded
                        then SetPayment(RefundCharge(recorded, q.value), q.value, RefundedPayment) else recorded
  {
    hide DbInv, Solo;
    var o := db.payments[p].order;
    DeliveryExact(k, db, p, oks);
    LatestIgnoresStatus(db.payments, p, Succeeded, o);
    LatestIsNewest(db.payments, o);
    LedgerKnown(db, p);
  }

  lemma LedgerKnown(db: Db, p: nat)
    requires DbInv(db)
    ensures p in db.refunds ==> p < |db.payments| && db.refunds[p := db.payments[p].intent] == db.refunds
  {
    if p in db.refunds { assert RefundOk(db, p); }
  }

  /** The newest row is pending and its intent has succeeded: what a reconcile settles. */
  predicate Reconcilable(db: Db, o: nat, p: nat) {
    DbInv(db) && Latest(db.payments, o) == Some(p) && db.payments[p].status == Pending && Charged(db, db.payments[p].intent)
  }

  /** An undisturbed reconcile of such an order does what the missed event would have done. */
  lemma ReconcileSettles(k: nat, db: Db, o: nat, p: nat, oks: seq<bool>)
    requires Reconcilable(db, o, p) && AllOk(oks) && |oks| >= 8
    ensures o < |db.orders| && Solo(k, ReconcileStart(o), db, oks) == Moved(Done, PaidFor(db, p, k))
  {
    hide DbInv, PaidFor, NextOrder, NextRelease, NextRefund, NextSucceeded, NextFailed, NextReap, NextIntent;
    RowIsUnique(db, p);
    assert Solo(k, ReconcileStart(o), db, oks) == Solo(k, ReconcileCheck(p), db, oks[1..]);
    assert Solo(k, ReconcileCheck(p), db, oks[1..]) == Solo(k, PayCas(p), db, oks[1..][1..]);
    PayExact(k, db, p, oks[1..][1..]);
  }

  lemma NotYetSucceeded(db: Db, p: nat)
    requires DbInv(db) && PendingOrder(db, p)
    ensures db.payments[p].status != Succeeded
  {
    assert PaymentOk(db, p);
  }

  // ---------- a failed event ----------

  /** What a failed event makes of row q, by how many of its steps succeed. */
  function FailedDb(db: Db, q: nat, lead: nat): Db
    requires q < |db.payments| && db.payments[q].order < |db.orders|
  {
    var o := db.payments[q].order;
    if lead < 2 then db
    else
      var failed := SetPayment(db, q, Failed);
      if lead >= 4 && db.orders[o].status == PendingPayment
      then ReleaseOrder(failed, o, PaymentFailed, db.orders[o].items) else failed
  }

  lemma FailStops(k: nat, op: Op, db: Db, oks: seq<bool>)
    requires oks != [] && !oks[0] && (OnFailed(op) || op.ReadItems? || op.Release?)
    ensures Solo(k, op, db, oks) == Moved(Done, db)
  {
    assert Next(k, op, db, false) == Moved(Done, db);
    DoneStays(k, db, oks[1..]);
  }

  lemma FailReleases(k: nat, db: Db, o: nat, oks: seq<bool>)
    requires o < |db.orders|
    ensures Solo(k, ReadItems(o, PendingPayment, PaymentFailed, ByFailure), db, oks).db
         == if Lead(oks) >= 2 && db.orders[o].status == PendingPayment
            then ReleaseOrder(db, o, PaymentFailed, db.orders[o].items) else db
  {
    hide NextRefund, NextSucceeded, NextFailed, NextReconcile, NextReap, NextIntent;
    var read := ReadItems(o, PendingPayment, PaymentFailed, ByFailure);
    var release := Release(o, db.orders[o].items, PendingPayment, PaymentFailed, ByFailure);
    if oks != [] && !oks[0] {
      FailStops(k, read, db, oks);
    } else if oks != [] {
      assert Solo(k, read, db, oks) == Solo(k, release, db, oks[1..]);
      if oks[1..] != [] && !oks[1..][0] {
        FailStops(k, release, db, oks[1..]);
      } else if oks[1..] != [] {
        DoneStays(k, NextRelease(release, db, true).db, oks[1..][1..]);
      }
    }
  }

  /** A failed event, stopped or failing anywhere: the row is overwritten whatever it said, then a pending order is released. */
  lemma FailureExact(k: nat, db: Db, i: nat, oks: seq<bool>)
    requires DbInv(db)
    ensures var row := RowOfIntent(db.payments, i);
            && (row.Some? ==> db.payments[row.value].order < |db.orders|)
            && Solo(k, FailedEvent(i), db, oks).db
               == if row.Some? && db.payments[row.value].status != Failed then FailedDb(db, row.value, Lead(oks)) else db
  {
    hide DbInv, NextOrder, NextRelease, NextRefund, NextSucceeded, NextReconcile, NextReap, NextIntent;
    var row := RowOfIntent(db.payments, i);
    if row.Some? { RowOk(db, row.value); }
    if oks != [] && !oks[0] {
      FailStops(k, FailedEvent(i), db, oks);
    } else if oks != [] {
      if row.None? || db.payments[row.value].status == Failed {
        DoneStays(k, db, oks[1..]);
      } else {
        var q := row.value;
        assert Solo(k, FailedEvent(i), db, oks) == Solo(k, RecordFailed(q), db, oks[1..]);
        if oks[1..] != [] && !oks[1..][0] {
          FailStops(k, RecordFailed(q), db, oks[1..]);
        } else if oks[1..] != [] {
          FailReleases(k, SetPayment(db, q, Failed), db.payments[q].order, oks[1..][1..]);
        }
      }
    }
  }

  // ---------- deliveries that stop and are repeated ----------

  /** Where stopped deliveries of the event of intent i can leave a pending order. */
  predicate Settling(db: Db, p: nat, i: nat) {
    && DbInv(db) && p < |db.payments| && db.payments[p].intent == i && Charged(db, i)
    && (LiveOrder(db, p) || (PendingOrder(db, p) && db.payments[p].status != Succeeded))
  }

  predicate SettlingOp(op: Op, db: Db, p: nat, i: nat) {
    op == SucceededEvent(i) || op == PayCas(p) || op == Done
    || (LiveOrder(db, p) && (op == LogPurchases(p) || op == PayRead(p) || op == RecordSucceeded(p, true) || op == Announce(p)))
  }

  predicate SettlingMoved(db: Db, m: Moved, p: nat, i: nat) {
    && p < |db.payments| && p < |m.db.payments| && m.db.payments[p].intent == db.payments[p].intent
    && SettlingOp(m.op, m.db, p, i)
    && (LiveOrder(m.db, p) || (PendingOrder(m.db, p) && m.db.payments == db.payments))
  }

  lemma SettlingSucceeded(k: nat, op: Op, db: Db, ok: bool, p: nat, i: nat)
    requires p < |db.payments| && db.payments[p].order < |db.orders| && RowOfIntent(db.payments, i) == Some(p)
    requires LiveOrder(db, p) || PendingOrder(db, p)
    requires SettlingOp(op, db, p, i) && op != Done
    ensures SettlingMoved(db, NextSucceeded(k, op, db, ok), p, i)
  {
    hide RowOfIntent;
  }

  lemma SettlingMoves(k: nat, op: Op, db: Db, ok: bool, p: nat, i: nat)
    requires p < |db.payments| && db.payments[p].order < |db.orders| && RowOfIntent(db.payments, i) == Some(p)
    requires LiveOrder(db, p) || PendingOrder(db, p)
    requires SettlingOp(op, db, p, i)
    ensures SettlingMoved(db, Next(k, op, db, ok), p, i)
  {
    hide NextSucceeded, NextRelease, NextRefund, NextFailed, NextReconcile, NextReap, NextIntent, RowOfIntent;
    if op != Done { SettlingSucceeded(k, op, db, ok, p, i); }
  }

  lemma SettlingStep(k: nat, op: Op, db: Db, ok: bool, p: nat, i: nat)
    requires Settling(db, p, i) && SettlingOp(op, db, p, i) && OpInv(k, op, db)
    ensures var m := Next(k, op, db, ok);
            Settling(m.db, p, i) && SettlingOp(m.op, m.db, p, i) && OpInv(k, m.op, m.db)
  {
    hide DbInv, OpInv, SettlingOp, Next, RowOfIntent;
    RowIsUnique(db, p);
    StepKeeps(k, op, db, ok);
    SettlingMoves(k, op, db, ok, p, i);
  }

  lemma {:induction false} SettlingSolo(k: nat, op: Op, db: Db, oks: seq<bool>, p: nat, i: nat)
    requires Settling(db, p, i) && SettlingOp(op, db, p, i) && OpInv(k, op, db)
    ensures Settling(Solo(k, op, db, oks).db, p, i)
    decreases oks
  {
    hide Settling, SettlingOp, OpInv, Next;
    if oks != [] {
      SettlingStep(k, op, db, oks[0], p, i);
      var m := Next(k, op, db, oks[0]);
      SettlingSolo(k, m.op, m.db, oks[1..], p, i);
    }
  }

  /** The same event delivered again and again, each time stopped or failing where its flags say. */
  function Redeliver(k: nat, i: nat, db: Db, attempts: seq<seq<bool>>): Db {
    if attempts == [] then db
    else Solo(k, SucceededEvent(i), Redeliver(k, i, db, attempts[..|attempts| - 1]), attempts[|attempts| - 1]).db
  }

  lemma {:induction false} RedeliverSettling(k: nat, db: Db, p: nat, i: nat, attempts: seq<seq<bool>>)
    requires Settling(db, p, i)
    ensures Settling(Redeliver(k, i, db, attempts), p, i)
  {
    hide DbInv, Solo;
    if attempts != [] {
      RedeliverSettling(k, db, p, i, attempts[..|attempts| - 1]);
      var before := Redeliver(k, i, db, attempts[..|attempts| - 1]);
      SettlingSolo(k, SucceededEvent(i), before, attempts[|attempts| - 1], p, i);
    }
  }

  /**
   However often the event of a pending order was delivered and stopped before, one
   undisturbed delivery leaves the order paid or later and its row succeeded.
   */
  lemma DeliveryConverges(k: nat, db: Db, p: nat, attempts: seq<seq<bool>>, oks: seq<bool>)
    requires Paying(db, p) && PendingOrder(db, p) && AllOk(oks) && |oks| >= 7
    ensures var i := db.payments[p].intent;
            var m := Solo(k, SucceededEvent(i), Redeliver(k, i, db, attempts), oks);
            && m.op == Done && p < |m.db.payments| && m.db.payments[p].status == Succeeded
            && LiveOrder(m.db, p)
  {
    hide DbInv, Solo, Redeliver, Latest;
    var i := db.payments[p].intent;
    NotYetSucceeded(db, p);
    RedeliverSettling(k, db, p, i, attempts);
    DeliveryExact(k, Redeliver(k, i, db, attempts), p, oks);
  }
}
