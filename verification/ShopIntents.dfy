/**
 What a request for an intent and one order of the reaper come to when nobody
 interferes: the request first settles what Stripe knows about the order and then
 reuses or creates an intent, and the reaper leaves nothing of the order payable.
 */
module ShopIntents {
  import opened Wrappers
  import opened Stock
  import opened ShopState
  import opened Operations
  import opened ShopInvariant
  import opened ShopRecovery
  import opened ShopDelivery

  // ---------- CreateIntent ----------

  function WithIntent(db: Db, o: nat): Db {
    db.(intents := db.intents + [Intent(o, RequiresPaymentMethod(false))],
        payments := db.payments + [Payment(o, |db.intents|, Pending)])
  }

  /** The newest row of the order is pending. */
  predicate HasPending(db: Db, o: nat) {
    var row := Latest(db.payments, o);
    row.Some? && db.payments[row.value].status == Pending && db.payments[row.value].intent < |db.intents|
  }

  /** Stripe's state of the intent of the newest row. */
  function PendingStatus(db: Db, o: nat): IntentStatus
    requires HasPending(db, o)
  {
    db.intents[db.payments[Latest(db.payments, o).value].intent].status
  }

  /** The customer can still confirm it: no error attached, and neither canceled nor succeeded. */
  predicate Confirmable(st: IntentStatus) {
    st == RequiresPaymentMethod(false) || st.RequiresConfirmation? || st.RequiresAction? || st.InProcess?
  }

  /** What a request for an intent of a pending order comes to. */
  function Outcome(db: Db, o: nat, k: nat): Db
    requires DbInv(db) && o < |db.orders| && db.orders[o].status == PendingPayment
  {
    if !HasPending(db, o) then WithIntent(db, o)
    else
      var p := Latest(db.payments, o).value;
      if Confirmable(PendingStatus(db, o)) then db
      else if PendingStatus(db, o) == IntentSucceeded then Settled(db, p, k)
      else FailedDb(db, p, 4)
  }

  /** What the reconcile inside the request comes to. */
  function Reconciled(db: Db, o: nat, k: nat): Db
    requires DbInv(db) && o < |db.orders| && db.orders[o].status == PendingPayment
  {
    if HasPending(db, o) then Outcome(db, o, k) else db
  }

  /** The intent a request running alone hands out: one Stripe still accepts, or the new one once its row is recorded. */
  function HandedOut(k: nat, op: Op, db: Db, oks: seq<bool>): Option<nat>
    decreases oks
  {
    if oks == [] then None
    else if op.IntentProbe? && Hits(op, db, oks[0]) then Some(db.payments[op.payment].intent)
    else if op.IntentRow? && Hits(op, db, oks[0]) then Some(op.intent)
    else
      var m := Next(k, op, db, oks[0]);
      HandedOut(k, m.op, m.db, oks[1..])
  }

  lemma {:induction false} NothingMore(k: nat, db: Db, oks: seq<bool>)
    ensures HandedOut(k, Done, db, oks) == None
  {
    if oks != [] { NothingMore(k, db, oks[1..]); }
  }

  lemma FailingPart(k: nat, db: Db, p: nat, oks: seq<bool>)
    requires p < |db.payments| && db.payments[p].order < |db.orders| && AllOk(oks) && |oks| >= 3
    ensures Solo(k, RecordFailed(p), db, oks) == Moved(Done, FailedDb(db, p, 4))
  {
    hide NextRefund, NextSucceeded, NextReconcile, NextReap, NextIntent;
    var o := db.payments[p].order;
    var failed := SetPayment(db, p, Failed);
    var release := Release(o, db.orders[o].items, PendingPayment, PaymentFailed, ByFailure);
    assert Solo(k, RecordFailed(p), db, oks)
        == Solo(k, ReadItems(o, PendingPayment, PaymentFailed, ByFailure), failed, oks[1..]);
    assert Solo(k, ReadItems(o, PendingPayment, PaymentFailed, ByFailure), failed, oks[1..])
        == Solo(k, release, failed, oks[1..][1..]);
    DoneStays(k, NextRelease(release, failed, true).db, oks[1..][1..][1..]);
  }

  lemma ReconcilePart(k: nat, db: Db, o: nat, oks: seq<bool>)
    requires DbInv(db) && o < |db.orders| && db.orders[o].status == PendingPayment && AllOk(oks) && |oks| >= 6
    ensures Solo(k, ReconcileStart(o), db, oks) == Moved(Done, Reconciled(db, o, k))
  {
    hide DbInv, FailedDb, Settled, NextOrder, NextRelease, NextRefund, NextSucceeded, NextFailed, NextReap, NextIntent;
    var row := Latest(db.payments, o);
    if row.Some? { RowOk(db, row.value); }
    if HasPending(db, o) {
      var p, st := row.value, PendingStatus(db, o);
      assert Solo(k, ReconcileStart(o), db, oks) == Solo(k, ReconcileCheck(p), db, oks[1..]);
      if st == IntentSucceeded {
        assert Solo(k, ReconcileCheck(p), db, oks[1..]) == Solo(k, PayCas(p), db, oks[1..][1..]);
        PayPending(k, db, p, oks[1..][1..]);
      } else if st == IntentCanceled || st == RequiresPaymentMethod(true) {
        assert Solo(k, ReconcileCheck(p), db, oks[1..]) == Solo(k, RecordFailed(p), db, oks[1..][1..]);
        FailingPart(k, db, p, oks[1..][1..]);
      } else {
        DoneStays(k, db, oks[1..][1..]);
      }
    } else {
      DoneStays(k, db, oks[1..]);
    }
  }

  /** A reconcile that ends inside a request without a failure is followed by the reload. */
  lemma {:induction false} NestedPart(k: nat, o: nat, op: Op, db: Db, n: nat, oks: seq<bool>) returns (rest: seq<bool>)
    requires Reconciling(op) && AllOk(oks) && n <= |oks| && Solo(k, op, db, oks[..n]).op == Done
    ensures AllOk(rest) && |rest| >= |oks| - n
    ensures Solo(k, IntentFirst(o, op), db, oks) == Solo(k, IntentReload(o), Solo(k, op, db, oks[..n]).db, rest)
    ensures HandedOut(k, IntentFirst(o, op), db, oks) == HandedOut(k, IntentReload(o), Solo(k, op, db, oks[..n]).db, rest)
    decreases n
  {
    hide NextPlain, Reconciling;
    NotNested(op);
    assert n > 0;
    var m := NextPlain(k, op, db, true);
    InnerStays(k, op, db, true);
    assert oks[..n][1..] == oks[1..][..n - 1];
    if m.op == Done {
      DoneStays(k, m.db, oks[1..][..n - 1]);
      rest := oks[1..];
    } else {
      rest := NestedPart(k, o, m.op, m.db, n - 1, oks[1..]);
    }
  }

  lemma NotNested(op: Op)
    requires Reconciling(op)
    ensures !op.IntentFirst? && op != Done
  {
  }

  lemma CreatePart(k: nat, db: Db, o: nat, oks: seq<bool>)
    requires DbInv(db) && AllOk(oks) && |oks| >= 2
    ensures Solo(k, IntentNew(o), db, oks) == Moved(Done, WithIntent(db, o))
    ensures HandedOut(k, IntentNew(o), db, oks) == Some(|db.intents|)
  {
    hide NextOrder, NextRelease, NextRefund, NextSucceeded, NextFailed, NextReconcile, NextReap;
    var made := db.(intents := db.intents + [Intent(o, RequiresPaymentMethod(false))]);
    forall p | 0 <= p < |db.payments| ensures db.payments[p].intent != |db.intents| { assert PaymentOk(db, p); }
    assert Solo(k, IntentNew(o), db, oks) == Solo(k, IntentRow(o, |db.intents|), made, oks[1..]);
    assert HandedOut(k, IntentNew(o), db, oks) == HandedOut(k, IntentRow(o, |db.intents|), made, oks[1..]);
    DoneStays(k, WithIntent(db, o), oks[1..][1..]);
  }

  lemma KeepPart(k: nat, db: Db, o: nat, oks: seq<bool>)
    requires o < |db.orders| && HasPending(db, o) && Confirmable(PendingStatus(db, o)) && AllOk(oks) && |oks| >= 2
    ensures Solo(k, IntentReuse(o), db, oks) == Moved(Done, db)
    ensures HandedOut(k, IntentReuse(o), db, oks) == Some(db.payments[Latest(db.payments, o).value].intent)
  {
    hide NextOrder, NextRelease, NextRefund, NextSucceeded, NextFailed, NextReconcile, NextReap;
    var probe := IntentProbe(o, Latest(db.payments, o).value);
    assert Solo(k, IntentReuse(o), db, oks) == Solo(k, probe, db, oks[1..]);
    assert HandedOut(k, IntentReuse(o), db, oks) == HandedOut(k, probe, db, oks[1..]);
    DoneStays(k, db, oks[1..][1..]);
  }

  lemma NewPart(k: nat, db: Db, o: nat, oks: seq<bool>)
    requires DbInv(db) && o < |db.orders| && !HasPending(db, o) && AllOk(oks) && |oks| >= 3
    ensures Solo(k, IntentReuse(o), db, oks) == Moved(Done, WithIntent(db, o))
    ensures HandedOut(k, IntentReuse(o), db, oks) == Some(|db.intents|)
  {
    hide DbInv, WithIntent, NextOrder, NextRelease, NextRefund, NextSucceeded, NextFailed, NextReconcile, NextReap;
    var row := Latest(db.payments, o);
    if row.Some? { RowOk(db, row.value); }
    assert Solo(k, IntentReuse(o), db, oks) == Solo(k, IntentNew(o), db, oks[1..]);
    assert HandedOut(k, IntentReuse(o), db, oks) == HandedOut(k, IntentNew(o), db, oks[1..]);
    CreatePart(k, db, o, oks[1..]);
  }

  /** After the reload of a pending order: its confirmable intent is reused, or one is created. */
  lemma ReusePart(k: nat, db: Db, o: nat, oks: seq<bool>)
    requires DbInv(db) && o < |db.orders| && db.orders[o].status == PendingPayment && AllOk(oks) && |oks| >= 4
    requires HasPending(db, o) ==> Confirmable(PendingStatus(db, o))
    ensures Solo(k, IntentReload(o), db, oks) == Moved(Done, if HasPending(db, o) then db else WithIntent(db, o))
    ensures HandedOut(k, IntentReload(o), db, oks)
         == Some(if HasPending(db, o) then db.payments[Latest(db.payments, o).value].intent else |db.intents|)
  {
    hide DbInv, WithIntent, Latest, PendingStatus;
    hide NextOrder, NextRelease, NextRefund, NextSucceeded, NextFailed, NextReconcile, NextReap;
    assert Solo(k, IntentReload(o), db, oks) == Solo(k, IntentReuse(o), db, oks[1..]);
    assert HandedOut(k, IntentReload(o), db, oks) == HandedOut(k, IntentReuse(o), db, oks[1..]);
    if HasPending(db, o) {
      KeepPart(k, db, o, oks[1..]);
    } else {
      NewPart(k, db, o, oks[1..]);
    }
  }

  lemma RefusePart(k: nat, db: Db, o: nat, oks: seq<bool>)
    requires o < |db.orders| && db.orders[o].status != PendingPayment && AllOk(oks) && oks != []
    ensures Solo(k, IntentReload(o), db, oks) == Moved(Done, db)
    ensures Solo(k, IntentStart(o), db, oks) == Moved(Done, db)
    ensures HandedOut(k, IntentReload(o), db, oks) == None
  {
    hide NextOrder, NextRelease, NextRefund, NextSucceeded, NextFailed, NextReconcile, NextReap;
    DoneStays(k, db, oks[1..]);
    NothingMore(k, db, oks[1..]);
  }

  lemma StartPart(k: nat, db: Db, o: nat, oks: seq<bool>)
    requires o < |db.orders| && db.orders[o].status == PendingPayment && AllOk(oks) && oks != []
    ensures Solo(k, IntentStart(o), db, oks) == Solo(k, IntentFirst(o, ReconcileStart(o)), db, oks[1..])
    ensures HandedOut(k, IntentStart(o), db, oks) == HandedOut(k, IntentFirst(o, ReconcileStart(o)), db, oks[1..])
  {
    hide NextOrder, NextRelease, NextRefund, NextSucceeded, NextFailed, NextReconcile, NextReap;
  }

  /** The order stays pending exactly when an intent is handed out. */
  lemma OutOfPending(k: nat, db: Db, o: nat)
    requires DbInv(db) && o < |db.orders| && db.orders[o].status == PendingPayment
    ensures |Outcome(db, o, k).orders| == |db.orders|
    ensures Outcome(db, o, k).orders[o].status
         == if !HasPending(db, o) || Confirmable(PendingStatus(db, o)) then PendingPayment
            else if PendingStatus(db, o) == IntentSucceeded then Paid
            else PaymentFailed
  {
  }

  /**
   An undisturbed request on a pending order. With no pending newest row it adds exactly
   one intent and its row and hands that out; with one whose intent can still be
   confirmed it changes nothing and hands that intent out; otherwise the reconcile inside
   it takes the order out of pending and nothing is handed out: a succeeded intent pays
   the order, and a declined or canceled one fails it and puts its items back.
   */
  lemma CreateIntentOutcome(k: nat, db: Db, o: nat, oks: seq<bool>)
    requires DbInv(db) && o < |db.orders| && db.orders[o].status == PendingPayment && AllOk(oks) && |oks| >= 11
    ensures Solo(k, IntentStart(o), db, oks) == Moved(Done, Outcome(db, o, k))
    ensures HandedOut(k, IntentStart(o), db, oks)
         == if !HasPending(db, o) then Some(|db.intents|)
            else if Confirmable(PendingStatus(db, o)) then Some(db.payments[Latest(db.payments, o).value].intent)
            else None
  {
    hide DbInv, Solo, HandedOut, FailedDb, Settled, WithIntent, Latest;
    StartPart(k, db, o, oks);
    var after := oks[1..];
    ReconcilePart(k, db, o, after[..6]);
    var rest := NestedPart(k, o, ReconcileStart(o), db, 6, after);
    if HasPending(db, o) && !Confirmable(PendingStatus(db, o)) {
      OutOfPending(k, db, o);
      RefusePart(k, Outcome(db, o, k), o, rest);
    } else {
      ReusePart(k, db, o, rest);
    }
  }

  /** Asking again changes nothing, whatever the first request came to. */
  lemma CreateIntentTwice(k: nat, db: Db, o: nat, oks: seq<bool>)
    requires DbInv(db) && o < |db.orders| && db.orders[o].status == PendingPayment && AllOk(oks) && |oks| >= 11
    ensures var once := Solo(k, IntentStart(o), db, oks).db;
            Solo(k, IntentStart(o), once, oks) == Moved(Done, once)
  {
    hide DbInv, Solo, FailedDb, Settled;
    var once := Solo(k, IntentStart(o), db, oks).db;
    CreateIntentOutcome(k, db, o, oks);
    SoloKeeps(k, IntentStart(o), db, oks);
    OutOfPending(k, db, o);
    if once.orders[o].status != PendingPayment {
      RefusePart(k, once, o, oks);
    } else {
      if !HasPending(db, o) {
        assert Latest(once.payments, o) == Some(|db.payments|);
      }
      CreateIntentOutcome(k, once, o, oks);
    }
  }

  // ---------- one order of the reaper ----------

  /** The first n listed intents voided, and their rows marked. */
  function VoidedDb(db: Db, listed: seq<nat>, n: nat): Db
    requires n <= |listed| && forall j :: 0 <= j < |listed| ==> listed[j] < |db.intents|
    ensures |VoidedDb(db, listed, n).intents| == |db.intents|
  {
    if n == 0 then db
    else CancelRow(SetIntent(VoidedDb(db, listed, n - 1), listed[n - 1], IntentCanceled), listed[n - 1])
  }

  predicate Distinct(ids: seq<nat>) {
    forall a, b :: 0 <= a < b < |ids| ==> ids[a] != ids[b]
  }

  lemma {:induction false} ListedDistinct(payments: seq<Payment>, o: nat)
    requires forall p, q :: 0 <= p < q < |payments| ==> payments[p].intent != payments[q].intent
    ensures Distinct(PendingIntents(payments, o))
  {
    if payments != [] {
      var n := |payments| - 1;
      ListedDistinct(payments[..n], o);
      PendingIntentsListed(payments[..n], o, payments[n].intent);
    }
  }

  lemma {:induction false} VoidedIntents(db: Db, listed: seq<nat>, n: nat, i: nat)
    requires n <= |listed| && (forall j :: 0 <= j < |listed| ==> listed[j] < |db.intents|) && i < |db.intents|
    ensures VoidedDb(db, listed, n).intents[i]
         == if i in listed[..n] then db.intents[i].(status := IntentCanceled) else db.intents[i]
  {
    if n > 0 {
      VoidedIntents(db, listed, n - 1, i);
      assert listed[..n] == listed[..n - 1] + [listed[n - 1]];
    }
  }

  lemma {:induction false} TheRow(payments: seq<Payment>, p: nat)
    requires p < |payments|
    requires forall a, b :: 0 <= a < b < |payments| ==> payments[a].intent != payments[b].intent
    ensures RowOfIntent(payments, payments[p].intent) == Some(p)
  {
    if p < |payments| - 1 {
      TheRow(payments[..|payments| - 1], p);
    }
  }

  lemma CancelRowExact(db: Db, i: nat, p: nat)
    requires DistinctIntents(db) && p < |db.payments|
    ensures var db' := CancelRow(db, i);
            && |db'.payments| == |db.payments|
            && db'.payments[p] == if db.payments[p].intent == i && db.payments[p].status == Pending
                                  then db.payments[p].(status := CancelledPayment) else db.payments[p]
  {
    if db.payments[p].intent == i { TheRow(db.payments, p); }
  }

  lemma CancelRows(db: Db, i: nat)
    requires DistinctIntents(db)
    ensures var db' := CancelRow(db, i);
            && DistinctIntents(db') && db' == db.(payments := db'.payments)
            && |db'.payments| == |db.payments|
            && forall p :: 0 <= p < |db.payments| ==>
                 db'.payments[p] == if db.payments[p].intent == i && db.payments[p].status == Pending
                                    then db.payments[p].(status := CancelledPayment) else db.payments[p]
  {
    forall p | 0 <= p < |db.payments|
      ensures CancelRow(db, i).payments[p].intent == db.payments[p].intent
      ensures CancelRow(db, i).payments[p]
           == if db.payments[p].intent == i && db.payments[p].status == Pending
              then db.payments[p].(status := CancelledPayment) else db.payments[p]
    {
      CancelRowExact(db, i, p);
    }
  }

  lemma {:induction false} VoidedRows(db: Db, listed: seq<nat>, n: nat)
    requires n <= |listed| && (forall j :: 0 <= j < |listed| ==> listed[j] < |db.intents|) && DistinctIntents(db)
    ensures var db' := VoidedDb(db, listed, n);
            && |db'.payments| == |db.payments| && DistinctIntents(db')
            && db' == db.(intents := db'.intents, payments := db'.payments)
            && forall p :: 0 <= p < |db.payments| ==>
                 db'.payments[p] == if db.payments[p].intent in listed[..n] && db.payments[p].status == Pending
                                    then db.payments[p].(status := CancelledPayment) else db.payments[p]
  {
    hide CancelRow;
    if n > 0 {
      VoidedRows(db, listed, n - 1);
      CancelRows(SetIntent(VoidedDb(db, listed, n - 1), listed[n - 1], IntentCanceled), listed[n - 1]);
      assert listed[..n] == listed[..n - 1] + [listed[n - 1]];
    }
  }

  lemma VoidSteps(k: nat, db: Db, o: nat, listed: seq<nat>, n: nat, oks: seq<bool>)
    requires n < |listed| && listed[n] < |db.intents| && !Terminal(db.intents[listed[n]].status)
    requires AllOk(oks) && |oks| >= 2
    ensures var voided := SetIntent(db, listed[n], IntentCanceled);
            Solo(k, Void(o, listed, n), db, oks) == Solo(k, VoidNext(o, listed, n + 1), CancelRow(voided, listed[n]), oks[1..][1..])
  {
    hide CancelRow;
    var voided := SetIntent(db, listed[n], IntentCanceled);
    assert Solo(k, Void(o, listed, n), db, oks) == Solo(k, VoidRecord(o, listed, n), voided, oks[1..]);
  }

  /** Two steps void one listed intent. */
  lemma {:induction false} VoidOne(k: nat, db: Db, o: nat, listed: seq<nat>, n: nat, oks: seq<bool>)
    requires (forall j :: 0 <= j < |listed| ==> listed[j] < |db.intents|) && Distinct(listed) && n < |listed|
    requires Payable(db.intents[listed[n]].status) && AllOk(oks) && |oks| >= 2
    ensures Solo(k, Void(o, listed, n), VoidedDb(db, listed, n), oks)
         == Solo(k, VoidNext(o, listed, n + 1), VoidedDb(db, listed, n + 1), oks[1..][1..])
  {
    hide Solo, CancelRow, SetIntent;
    VoidedIntents(db, listed, n, listed[n]);
    VoidSteps(k, VoidedDb(db, listed, n), o, listed, n, oks);
  }

  lemma {:induction false} VoidAll(k: nat, db: Db, o: nat, listed: seq<nat>, n: nat, oks: seq<bool>) returns (rest: seq<bool>)
    requires (forall j :: 0 <= j < |listed| ==> listed[j] < |db.intents|) && Distinct(listed) && n <= |listed|
    requires forall j :: 0 <= j < |listed| ==> Payable(db.intents[listed[j]].status)
    requires AllOk(oks) && |oks| >= 2 * (|listed| - n)
    ensures |rest| == |oks| - 2 * (|listed| - n) && AllOk(rest)
    ensures Solo(k, VoidNext(o, listed, n), VoidedDb(db, listed, n), oks)
         == Solo(k, VoidNext(o, listed, |listed|), VoidedDb(db, listed, |listed|), rest)
    decreases |listed| - n
  {
    hide VoidedDb, Solo;
    if n == |listed| {
      rest := oks;
    } else {
      VoidOne(k, db, o, listed, n, oks);
      rest := VoidAll(k, db, o, listed, n + 1, oks[1..][1..]);
    }
  }

  lemma ListedKnown(db: Db, o: nat)
    requires DbInv(db)
    ensures var listed := PendingIntents(db.payments, o);
            Distinct(listed) && forall j :: 0 <= j < |listed| ==> listed[j] < |db.intents|
  {
    var listed := PendingIntents(db.payments, o);
    ListedDistinct(db.payments, o);
    forall j | 0 <= j < |listed| ensures listed[j] < |db.intents| {
      PendingIntentsListed(db.payments, o, listed[j]);
      var q :| 0 <= q < |db.payments| && db.payments[q] == Payment(o, listed[j], Pending);
      assert PaymentOk(db, q);
    }
  }

  /** The state after the reaper cancelled order o undisturbed. */
  function Reaped(db: Db, o: nat): Db
    requires DbInv(db) && o < |db.orders|
  {
    ListedKnown(db, o);
    var listed := PendingIntents(db.payments, o);
    var voided := VoidedDb(db, listed, |listed|);
    voided.(products := Restock(db.products, db.orders[o].items),
            orders := db.orders[o := Order(db.orders[o].items, Cancelled)],
            notes := db.notes.(reaped := db.notes.reaped[o := listed]))
  }

  lemma ReleasePart(k: nat, db: Db, at: Db, o: nat, listed: seq<nat>, oks: seq<bool>)
    requires o < |db.orders| && db.orders[o].status == PendingPayment && AllOk(oks) && |oks| >= 2
    requires at == db.(intents := at.intents, payments := at.payments)
    ensures Solo(k, ReadItems(o, PendingPayment, Cancelled, ByReaper(listed)), at, oks)
         == Moved(Done, at.(products := Restock(db.products, db.orders[o].items),
                            orders := db.orders[o := Order(db.orders[o].items, Cancelled)],
                            notes := db.notes.(reaped := db.notes.reaped[o := listed])))
  {
    var op := Release(o, db.orders[o].items, PendingPayment, Cancelled, ByReaper(listed));
    assert Solo(k, ReadItems(o, PendingPayment, Cancelled, ByReaper(listed)), at, oks) == Solo(k, op, at, oks[1..]);
    DoneStays(k, NextRelease(op, at, true).db, oks[1..][1..]);
  }

  /**
   An undisturbed reap of a pending order whose pending intents are all payable: the
   order is cancelled, its items are back, exactly its pending rows are marked
   cancelled, and exactly their intents are void at Stripe.
   */
  lemma ReapSettles(k: nat, db: Db, o: nat, oks: seq<bool>)
    requires DbInv(db) && o < |db.orders| && db.orders[o].status == PendingPayment
    requires forall q :: 0 <= q < |db.payments| && db.payments[q].order == o && db.payments[q].status == Pending ==>
               db.payments[q].intent < |db.intents| && Payable(db.intents[db.payments[q].intent].status)
    requires AllOk(oks) && |oks| >= 2 * |PendingIntents(db.payments, o)| + 3
    ensures Solo(k, ReapStart(o), db, oks) == Moved(Done, Reaped(db, o))
    ensures forall p :: 0 <= p < |db.payments| ==>
              p < |Reaped(db, o).payments| && Reaped(db, o).payments[p]
                == if db.payments[p].order == o && db.payments[p].status == Pending
                   then db.payments[p].(status := CancelledPayment) else db.payments[p]
    ensures forall i :: 0 <= i < |db.intents| ==>
              Reaped(db, o).intents[i]
                == if i in PendingIntents(db.payments, o) then Intent(db.intents[i].order, IntentCanceled) else db.intents[i]
  {
    hide DbInv, Solo, VoidedDb, PendingIntents, Distinct;
    var listed := PendingIntents(db.payments, o);
    ListedKnown(db, o);
    Unique(db);
    forall j | 0 <= j < |listed| ensures Payable(db.intents[listed[j]].status) {
      PendingIntentsListed(db.payments, o, listed[j]);
    }
    FirstStep(k, db, o, oks);
    var rest := VoidAll(k, db, o, listed, 0, oks[1..]);
    Unvoided(db, listed);
    VoidedRows(db, listed, |listed|);
    ReleasePart(k, db, VoidedDb(db, listed, |listed|), o, listed, rest);
    assert listed[..|listed|] == listed;
    forall i | 0 <= i < |db.intents|
      ensures Reaped(db, o).intents[i] == if i in listed then Intent(db.intents[i].order, IntentCanceled) else db.intents[i]
    {
      VoidedIntents(db, listed, |listed|, i);
    }
    forall p | 0 <= p < |db.payments| && db.payments[p].status == Pending
      ensures db.payments[p].intent in listed <==> db.payments[p].order == o
    {
      ListedRow(db, o, p);
    }
  }

  lemma Unique(db: Db)
    requires DbInv(db)
    ensures DistinctIntents(db)
  {
  }

  lemma Unvoided(db: Db, listed: seq<nat>)
    requires forall j :: 0 <= j < |listed| ==> listed[j] < |db.intents|
    ensures VoidedDb(db, listed, 0) == db
  {
  }

  lemma FirstStep(k: nat, db: Db, o: nat, oks: seq<bool>)
    requires oks != [] && oks[0]
    ensures Solo(k, ReapStart(o), db, oks) == Solo(k, VoidNext(o, PendingIntents(db.payments, o), 0), db, oks[1..])
  {
  }

  lemma ListedRow(db: Db, o: nat, p: nat)
    requires DistinctIntents(db) && p < |db.payments| && db.payments[p].status == Pending
    ensures db.payments[p].intent in PendingIntents(db.payments, o) <==> db.payments[p].order == o
  {
    var i := db.payments[p].intent;
    PendingIntentsListed(db.payments, o, i);
    if i in PendingIntents(db.payments, o) {
      var q :| 0 <= q < |db.payments| && db.payments[q] == Payment(o, i, Pending);
      assert p == q;
    }
    if db.payments[p].order == o {
      assert db.payments[p] == Payment(o, i, Pending);
    }
  }
}
