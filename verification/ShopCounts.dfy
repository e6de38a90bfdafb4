/**
 The exact count over a series of requests that run undisturbed, one at a time: which of
 them count the revenue of a payment.
 */
module ShopCounts {
  import opened Wrappers
  import opened ShopState
  import opened Operations
  import opened ShopInvariant
  import opened ShopRecovery
  import opened ShopDelivery
  import opened ShopIntents
  import opened ShopSeries

  // ---------- undisturbed requests ----------

  /** No step fails, and the request runs to its end. */
  predicate Undisturbed(k: nat, db: Db, t: Turn) {
    t.Ask? && Startable(t.request, db) ==> AllOk(t.oks) && Solo(k, t.request, db, t.oks).op == Done
  }

  lemma {:induction false} MoreSteps(k: nat, op: Op, db: Db, oks: seq<bool>, more: seq<bool>)
    requires Solo(k, op, db, oks).op == Done
    ensures Solo(k, op, db, oks + more) == Solo(k, op, db, oks)
    decreases oks
  {
    hide Next;
    if oks == [] {
      assert [] + more == more;
      DoneStays(k, db, more);
    } else {
      var m := Next(k, op, db, oks[0]);
      assert (oks + more)[1..] == oks[1..] + more;
      MoreSteps(k, m.op, m.db, oks[1..], more);
    }
  }

  /** A request that ran to its end can be given as many steps more as a proof asks for. */
  lemma LongEnough(k: nat, op: Op, db: Db, oks: seq<bool>, n: nat) returns (long: seq<bool>)
    requires AllOk(oks) && Solo(k, op, db, oks).op == Done
    ensures AllOk(long) && |long| >= n && Solo(k, op, db, long) == Solo(k, op, db, oks)
  {
    long := oks + seq(n, _ => true);
    MoreSteps(k, op, db, oks, seq(n, _ => true));
  }

  // ---------- what each request announces ----------

  /** The newest row of the order is pending, its intent has succeeded, and the order is not dead. */
  predicate Due(db: Db, o: nat, p: nat) {
    Latest(db.payments, o) == Some(p) && db.payments[p].status == Pending
    && Charged(db, db.payments[p].intent) && !Dead(db, o)
  }

  /** The turn announces payment p when nothing disturbs it. */
  predicate Announces(db: Db, t: Turn, p: nat) {
    && p < |db.payments| && t.Ask?
    && match t.request
       case SucceededEvent(i) =>
         Charged(db, i) && db.payments[p].intent == i && db.payments[p].status != Succeeded && !Dead(db, db.payments[p].order)
       case ReconcileStart(o) => Due(db, o, p)
       case ReapStart(o) => o < |db.orders| && Due(db, o, p)
       case IntentStart(o) => o < |db.orders| && db.orders[o].status == PendingPayment && Due(db, o, p)
       case _ => false
  }

  /** What db' announces for p beyond db: one when due. */
  predicate Counts(db: Db, db': Db, p: nat, due: bool) {
    multiset(db'.announced)[p] == multiset(db.announced)[p] + if due then 1 else 0
  }

  lemma EventCounts(k: nat, db: Db, i: nat, oks: seq<bool>, p: nat)
    requires DbInv(db) && AllOk(oks) && |oks| >= 7 && Charged(db, i)
    ensures Counts(db, Solo(k, SucceededEvent(i), db, oks).db, p, Announces(db, Ask(SucceededEvent(i), oks), p))
  {
    hide DbInv, Solo, Latest;
    var row := RowOfIntent(db.payments, i);
    if p < |db.payments| { RowIsUnique(db, p); }
    if row.None? {
      NoRowDelivered(k, db, i, oks);
    } else {
      AnnouncesIff(k, db, row.value, oks);
      MoreAnnounced(db.announced, row.value, p);
    }
  }

  lemma NoRowDelivered(k: nat, db: Db, i: nat, oks: seq<bool>)
    requires RowOfIntent(db.payments, i).None?
    ensures Solo(k, SucceededEvent(i), db, oks).db == db
  {
    if oks != [] { DoneStays(k, db, oks[1..]); }
  }

  lemma ReconcileCounts(k: nat, db: Db, o: nat, oks: seq<bool>, p: nat)
    requires DbInv(db) && AllOk(oks) && |oks| >= 8
    ensures Counts(db, Solo(k, ReconcileStart(o), db, oks).db, p, Due(db, o, p))
  {
    hide DbInv, Solo;
    var row := Latest(db.payments, o);
    if row.Some? && Reconcilable(db, o, row.value) {
      ReconcileSettles(k, db, o, row.value, oks);
      MoreAnnounced(db.announced, row.value, p);
    } else {
      NothingToReconcile(k, db, o, oks);
    }
  }

  /** A reconcile that does not find a succeeded intent may fail the payment, but announces nothing. */
  lemma NothingToReconcile(k: nat, db: Db, o: nat, oks: seq<bool>)
    requires DbInv(db) && !(Latest(db.payments, o).Some? && Reconcilable(db, o, Latest(db.payments, o).value))
    ensures Solo(k, ReconcileStart(o), db, oks).db.announced == db.announced
  {
    hide DbInv, NextOrder, NextRelease, NextRefund, NextSucceeded, NextFailed, NextReap, NextIntent;
    if oks != [] {
      var m := Next(k, ReconcileStart(o), db, oks[0]);
      if m.op.ReconcileCheck? && oks[1..] != [] {
        var m2 := Next(k, m.op, db, oks[1..][0]);
        SilentSolo(k, m2.op, db, oks[1..][1..]);
      } else if !m.op.ReconcileCheck? {
        DoneStays(k, db, oks[1..]);
      }
    }
  }

  lemma RequestCounts(k: nat, db: Db, o: nat, oks: seq<bool>, p: nat)
    requires DbInv(db) && AllOk(oks) && |oks| >= 11
    ensures Counts(db, Solo(k, IntentStart(o), db, oks).db, p,
                   o < |db.orders| && db.orders[o].status == PendingPayment && Due(db, o, p))
  {
    hide DbInv, Solo, Latest;
    if o < |db.orders| && db.orders[o].status == PendingPayment {
      CreateIntentOutcome(k, db, o, oks);
      var row := Latest(db.payments, o);
      if row.Some? { RowOk(db, row.value); }
      if HasPending(db, o) { MoreAnnounced(db.announced, row.value, p); }
    } else {
      NothingAsked(k, db, o, oks);
    }
  }

  lemma NothingAsked(k: nat, db: Db, o: nat, oks: seq<bool>)
    requires !(o < |db.orders| && db.orders[o].status == PendingPayment) && oks != []
    ensures Solo(k, IntentStart(o), db, oks) == Moved(Done, db)
  {
    DoneStays(k, db, oks[1..]);
  }

  // ---------- one order of the reaper ----------

  /** The database after one listed intent was dealt with, when it was or is canceled at Stripe. */
  predicate VoidedNext(db: Db, db': Db, i: nat) {
    && i < |db.intents| && !db.intents[i].status.IntentSucceeded?
    && db' == CancelRow(SetIntent(db, i, IntentCanceled), i)
  }

  lemma VoidedDue(db: Db, db': Db, o: nat, i: nat, p: nat)
    requires VoidedNext(db, db', i)
    ensures db'.announced == db.announced && (Due(db', o, p) <==> Due(db, o, p))
    ensures Due(db, o, p) ==>
              && p < |db'.payments| == |db.payments|
              && db.payments[p].intent != i && db'.payments[p].intent == db.payments[p].intent
  {
    var row := RowOfIntent(db.payments, i);
    if row.Some? { LatestIgnoresStatus(db.payments, row.value, CancelledPayment, o); }
    hide Latest;
  }

  lemma VoidRefused(k: nat, db: Db, o: nat, listed: seq<nat>, n: nat, oks: seq<bool>)
    requires n < |listed| && listed[n] < |db.intents| && Terminal(db.intents[listed[n]].status) && AllOk(oks) && |oks| >= 3
    ensures Solo(k, Void(o, listed, n), db, oks)
         == if db.intents[listed[n]].status.IntentSucceeded? then Solo(k, ReconcileStart(o), db, oks[1..][1..])
            else Solo(k, VoidNext(o, listed, n + 1), CancelRow(db, listed[n]), oks[1..][1..][1..])
  {
    hide CancelRow, NextOrder, NextRelease, NextRefund, NextSucceeded, NextFailed, NextReconcile, NextIntent;
    var rest := oks[1..][1..];
    assert Solo(k, Void(o, listed, n), db, oks) == Solo(k, VoidCheck(o, listed, n), db, oks[1..]);
    if !db.intents[listed[n]].status.IntentSucceeded? {
      assert Solo(k, VoidCheck(o, listed, n), db, oks[1..]) == Solo(k, VoidRecord(o, listed, n), db, rest);
    }
  }

  /** The steps that void one listed intent, or the check that meets a succeeded one. */
  lemma VoidPart(k: nat, db: Db, o: nat, listed: seq<nat>, n: nat, oks: seq<bool>) returns (db': Db, rest: seq<bool>)
    requires n < |listed| && listed[n] < |db.intents| && AllOk(oks) && |oks| >= 3
    ensures AllOk(rest) && |rest| >= |oks| - 3
    ensures if db.intents[listed[n]].status.IntentSucceeded?
            then db' == db && Solo(k, Void(o, listed, n), db, oks) == Solo(k, ReconcileStart(o), db, rest)
            else VoidedNext(db, db', listed[n])
                 && Solo(k, Void(o, listed, n), db, oks) == Solo(k, VoidNext(o, listed, n + 1), db', rest)
  {
    hide Solo, CancelRow;
    var i := listed[n];
    if !Terminal(db.intents[i].status) {
      VoidSteps(k, db, o, listed, n, oks);
      db', rest := CancelRow(SetIntent(db, i, IntentCanceled), i), oks[1..][1..];
    } else {
      VoidRefused(k, db, o, listed, n, oks);
      if db.intents[i].status.IntentSucceeded? {
        db', rest := db, oks[1..][1..];
      } else {
        assert SetIntent(db, i, IntentCanceled) == db;
        db', rest := CancelRow(db, i), oks[1..][1..][1..];
      }
    }
  }

  predicate StillListed(db: Db, o: nat, listed: seq<nat>, n: nat, p: nat) {
    n <= |listed| && (Due(db, o, p) ==> p < |db.payments| && db.payments[p].intent in listed[n..])
  }

  lemma ListedNext(db: Db, db': Db, o: nat, listed: seq<nat>, n: nat, p: nat)
    requires StillListed(db, o, listed, n, p) && n < |listed| && VoidedNext(db, db', listed[n])
    ensures StillListed(db', o, listed, n + 1, p)
  {
    hide Due, VoidedNext;
    VoidedDue(db, db', o, listed[n], p);
    assert listed[n..] == [listed[n]] + listed[n + 1..];
  }

  /** The voiding of the rest of the list announces the newest row of the order if it is due, and nothing else. */
  lemma {:induction false} VoidingCounts(k: nat, db: Db, o: nat, listed: seq<nat>, n: nat, oks: seq<bool>, p: nat)
    requires DbInv(db) && InRange(db, listed) && StillListed(db, o, listed, n, p)
    requires AllOk(oks) && |oks| >= 8 + 3 * (|listed| - n)
    ensures Counts(db, Solo(k, VoidNext(o, listed, n), db, oks).db, p, Due(db, o, p))
    decreases |listed| - n
  {
    hide DbInv, Solo, Due, VoidedNext;
    if n == |listed| {
      SilentSolo(k, VoidNext(o, listed, n), db, oks);
    } else {
      var db', rest := VoidPart(k, db, o, listed, n, oks);
      if db.intents[listed[n]].status.IntentSucceeded? {
        ReconcileCounts(k, db, o, rest, p);
      } else {
        VoidedDue(db, db', o, listed[n], p);
        ListedNext(db, db', o, listed, n, p);
        VoidedKeeps(k, db, db', listed, listed[n]);
        VoidingCounts(k, db', o, listed, n + 1, rest, p);
      }
    }
  }

  lemma VoidedKeeps(k: nat, db: Db, db': Db, listed: seq<nat>, i: nat)
    requires DbInv(db) && InRange(db, listed) && VoidedNext(db, db', i)
    ensures DbInv(db') && InRange(db', listed)
  {
    hide DbInv;
    var voided := SetIntent(db, i, IntentCanceled);
    if db.intents[i].status.IntentCanceled? {
      assert voided == db;
    } else {
      IntentKeeps(db, i, IntentCanceled, k);
    }
    var row := RowOfIntent(voided.payments, i);
    if row.Some? && voided.payments[row.value].status == Pending {
      PaymentKeeps(voided, row.value, CancelledPayment, k);
    }
  }

  lemma ReapCounts(k: nat, db: Db, o: nat, oks: seq<bool>, p: nat)
    requires DbInv(db) && AllOk(oks) && |oks| >= 9 + 3 * |PendingIntents(db.payments, o)|
    ensures Counts(db, Solo(k, ReapStart(o), db, oks).db, p, Due(db, o, p))
  {
    hide DbInv, Solo, PendingIntents;
    var listed := PendingIntents(db.payments, o);
    ListedKnown(db, o);
    FirstStep(k, db, o, oks);
    if Due(db, o, p) { DueIsListed(db, o, p); }
    assert listed[0..] == listed;
    VoidingCounts(k, db, o, listed, 0, oks[1..], p);
  }

  lemma DueIsListed(db: Db, o: nat, p: nat)
    requires Due(db, o, p)
    ensures db.payments[p].intent in PendingIntents(db.payments, o)
  {
    PendingIntentsListed(db.payments, o, db.payments[p].intent);
    assert db.payments[p] == Payment(o, db.payments[p].intent, Pending);
  }

  // ---------- the exact count ----------

  lemma AskCounts(k: nat, db: Db, request: Op, oks: seq<bool>, p: nat)
    requires DbInv(db) && Startable(request, db) && AllOk(oks) && |oks| >= 11
    requires request.ReapStart? ==> |oks| >= 9 + 3 * |PendingIntents(db.payments, request.order)|
    ensures Counts(db, Solo(k, request, db, oks).db, p, Announces(db, Ask(request, oks), p))
  {
    hide DbInv, Solo, Latest, PendingIntents;
    if request.SucceededEvent? { EventCounts(k, db, request.intent, oks, p); }
    else if request.ReconcileStart? { ReconcileCounts(k, db, request.order, oks, p); DueIsRow(db, request.order, p); }
    else if request.ReapStart? { ReapCounts(k, db, request.order, oks, p); DueIsRow(db, request.order, p); }
    else if request.IntentStart? { RequestCounts(k, db, request.order, oks, p); DueIsRow(db, request.order, p); }
    else { SilentSolo(k, request, db, oks); }
  }

  lemma DueIsRow(db: Db, o: nat, p: nat)
    ensures Due(db, o, p) ==> p < |db.payments|
  {
  }

  lemma ServeCounts(k: nat, db: Db, t: Turn, p: nat)
    requires DbInv(db) && Undisturbed(k, db, t)
    ensures Counts(db, Serve(k, db, t), p, Announces(db, t, p) && Startable(t.request, db))
  {
    hide DbInv, Solo, Startable, PendingIntents;
    if t.Ask? && Startable(t.request, db) {
      var n := if t.request.ReapStart? then 3 * |PendingIntents(db.payments, t.request.order)| else 0;
      var long := LongEnough(k, t.request, db, t.oks, 11 + n);
      AskCounts(k, db, t.request, long, p);
    }
  }

  lemma AnnouncesStartable(db: Db, t: Turn, p: nat)
    requires DbInv(db) && Announces(db, t, p)
    ensures Startable(t.request, db)
  {
  }

  function Announcing(k: nat, db: Db, ts: seq<Turn>, p: nat): nat {
    if ts == [] then 0
    else
      var front := ts[..|ts| - 1];
      Announcing(k, db, front, p) + if Announces(ServeAll(k, db, front), ts[|ts| - 1], p) then 1 else 0
  }

  /** Each request of the series runs undisturbed where it stands. */
  predicate AllUndisturbed(k: nat, db: Db, ts: seq<Turn>) {
    forall n :: 0 <= n < |ts| ==> Undisturbed(k, ServeAll(k, db, ts[..n]), ts[n])
  }

  /**
   Over any series of undisturbed requests, one at a time, with Stripe's own moves between
   them, a payment is announced exactly once for each delivery of its event that finds its
   row not succeeded and its order not dead, and for each reconcile, reap or request for
   an intent that finds its row pending, the newest of its order, and its intent charged.
   */
  lemma {:induction false} AnnouncementsExact(k: nat, db: Db, ts: seq<Turn>, p: nat)
    requires DbInv(db) && AllUndisturbed(k, db, ts)
    ensures multiset(ServeAll(k, db, ts).announced)[p] == multiset(db.announced)[p] + Announcing(k, db, ts, p)
  {
    hide DbInv, Serve, Announces, Undisturbed, Startable;
    if ts != [] {
      var front, last := ts[..|ts| - 1], ts[|ts| - 1];
      forall n | 0 <= n < |front| ensures Undisturbed(k, ServeAll(k, db, front[..n]), front[n]) {
        assert front[..n] == ts[..n] && front[n] == ts[n];
      }
      AnnouncementsExact(k, db, front, p);
      ServeAllKeeps(k, db, front);
      ServeCounts(k, ServeAll(k, db, front), last, p);
      if Announces(ServeAll(k, db, front), last, p) { AnnouncesStartable(ServeAll(k, db, front), last, p); }
    }
  }
}
