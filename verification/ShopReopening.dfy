/**
 Exactly which requests reopen a payment, so that its next delivery counts its revenue
 again.
 */
module ShopReopening {
  import opened Wrappers
  import opened ShopState
  import opened Operations
  import opened ShopInvariant
  import opened ShopRecovery
  import opened ShopDelivery
  import opened ShopSeries

  // ---------- failed events ----------

  /**
   A failed event reopens a payment exactly when it is for its intent, finds the row
   succeeded and the order live, and gets as far as overwriting the row.
   */
  lemma FailureReopensIff(k: nat, db: Db, i: nat, oks: seq<bool>, p: nat)
    requires DbInv(db) && p < |db.payments|
    ensures Reopens(k, db, Ask(FailedEvent(i), oks), p)
       <==> db.payments[p].intent == i && db.payments[p].status == Succeeded && LiveOrder(db, p) && Lead(oks) >= 2
  {
    hide DbInv, Solo, Lead;
    FailureExact(k, db, i, oks);
    RowIsUnique(db, p);
    if db.payments[p].status == Succeeded { ClosedOrder(db, p); }
  }

  lemma ClosedOrder(db: Db, p: nat)
    requires DbInv(db) && p < |db.payments| && db.payments[p].status == Succeeded
    ensures LiveOrder(db, p) || Dead(db, db.payments[p].order)
  {
    assert PaymentOk(db, p);
  }

  // ---------- cancels and refunds ----------

  lemma {:induction false} ReleaseKeepsRows(k: nat, op: Op, db: Db, oks: seq<bool>)
    requires op == Done || op.ReadItems? || op.Release?
    ensures Solo(k, op, db, oks).db.payments == db.payments
    decreases oks
  {
    hide NextRefund, NextSucceeded, NextFailed, NextReconcile, NextReap, NextIntent;
    if oks != [] {
      var m := Next(k, op, db, oks[0]);
      ReleaseKeepsRows(k, m.op, m.db, oks[1..]);
    }
  }

  /** A cancel or refund that does not find a charged newest row touches no row. */
  lemma NotReadyKeepsRows(k: nat, start: Op, db: Db, o: nat, oks: seq<bool>)
    requires start == CancelStart(o) || start == RefundStart(o)
    requires DbInv(db)
    requires !(Starts(start, db, o) && Latest(db.payments, o).Some? && RefundReady(db, o, Latest(db.payments, o).value))
    ensures Solo(k, start, db, oks).db.payments == db.payments
  {
    hide DbInv, NextRelease, NextSucceeded, NextFailed, NextReconcile, NextReap, NextIntent;
    if oks != [] {
      var m := Next(k, start, db, oks[0]);
      if m.op.RefundRead? {
        if oks[1..] != [] {
          var m2 := Next(k, m.op, db, oks[1..][0]);
          ReleaseKeepsRows(k, m2.op, db, oks[1..][1..]);
        }
      } else {
        ReleaseKeepsRows(k, m.op, db, oks[1..]);
      }
    }
  }

  /** The steps of a cancel or a refund. */
  predicate Releasing(op: Op) {
    op == Done || op.CancelStart? || op.RefundStart? || OnRefund(op) || op.ReadItems? || op.Release?
  }

  /** A dead order stays dead, but for the forward edits of an admin. */
  lemma DeadStep(k: nat, op: Op, db: Db, ok: bool, o: nat)
    requires Releasing(op) && PlainInv(k, op, db) && Dead(db, o)
    ensures Dead(Next(k, op, db, ok).db, o) && Releasing(Next(k, op, db, ok).op)
  {
  }

  lemma {:induction false} DeadStays(k: nat, op: Op, db: Db, oks: seq<bool>, o: nat)
    requires DbInv(db) && Releasing(op) && OpInv(k, op, db) && Dead(db, o)
    ensures Dead(Solo(k, op, db, oks).db, o)
    decreases oks
  {
    hide DbInv, PlainInv, Next, Dead;
    if oks != [] {
      var m := Next(k, op, db, oks[0]);
      DeadStep(k, op, db, oks[0], o);
      StepKeeps(k, op, db, oks[0]);
      DeadStays(k, m.op, m.db, oks[1..], o);
    }
  }

  lemma ReadyReopens(k: nat, db: Db, start: Op, o: nat, oks: seq<bool>, p: nat, row: nat)
    requires DbInv(db) && p < |db.payments| && Starts(start, db, o) && RefundReady(db, o, row)
    ensures Reopens(k, db, Ask(start, oks), p) <==> RefundReady(db, o, p) && 4 <= Lead(oks) < 6
  {
    hide DbInv, Solo, Lead, Latest;
    AttemptExact(k, start, db, o, row, 0, oks);
    RowIsUnique(db, p);
  }

  lemma NeverReopens(k: nat, db: Db, start: Op, o: nat, oks: seq<bool>, p: nat)
    requires DbInv(db) && p < |db.payments| && (start == CancelStart(o) || start == RefundStart(o))
    requires !(Starts(start, db, o) && Latest(db.payments, o).Some? && RefundReady(db, o, Latest(db.payments, o).value))
    ensures !Reopens(k, db, Ask(start, oks), p)
  {
    hide DbInv, Solo, Latest;
    NotReadyKeepsRows(k, start, db, o, oks);
    if Dead(db, db.payments[p].order) {
      StartKnown(k, start, db);
      DeadStays(k, start, db, oks, db.payments[p].order);
    }
  }

  /**
   A user's cancel or an admin's refund reopens a payment exactly when its row is the
   charged newest one and the attempt stops after marking the row and before its release
   hit: when four or five of its steps succeed.
   */
  lemma RefundReopensIff(k: nat, db: Db, start: Op, o: nat, oks: seq<bool>, p: nat)
    requires DbInv(db) && p < |db.payments| && (start == CancelStart(o) || start == RefundStart(o))
    ensures Reopens(k, db, Ask(start, oks), p) <==> RefundReady(db, o, p) && Starts(start, db, o) && 4 <= Lead(oks) < 6
  {
    hide DbInv, Solo, Lead, Latest, Reopens, Starts;
    var row := Latest(db.payments, o);
    if Starts(start, db, o) && row.Some? && RefundReady(db, o, row.value) {
      ReadyReopens(k, db, start, o, oks, p, row.value);
    } else {
      NeverReopens(k, db, start, o, oks, p);
    }
  }

  // ---------- admin edits ----------

  /** A forward edit of an order that is not pending, by how many of its steps succeed. */
  lemma EditExact(k: nat, db: Db, o: nat, target: OrderStatus, oks: seq<bool>)
    requires o < |db.orders| && AdminSettable(target) && target != Cancelled
    ensures Solo(k, EditStart(o, target), db, oks).db == if Lead(oks) >= 2 then MoveForward(db, o, target) else db
  {
    hide NextRelease, NextRefund, NextSucceeded, NextFailed, NextReconcile, NextReap, NextIntent;
    var edit := EditForward(o, db.orders[o].status, target);
    if oks != [] && !oks[0] {
      DoneStays(k, db, oks[1..]);
    } else if oks != [] {
      assert Solo(k, EditStart(o, target), db, oks) == Solo(k, edit, db, oks[1..]);
      if oks[1..] != [] {
        DoneStays(k, Next(k, edit, db, oks[1..][0]).db, oks[1..][1..]);
      }
    }
  }

  /** A plain admin cancel, or an edit that is refused, leaves rows alone and revives nothing. */
  lemma CancelEdit(k: nat, db: Db, o: nat, target: OrderStatus, oks: seq<bool>, d: nat)
    requires !(o < |db.orders| && AdminSettable(target) && target != Cancelled) && DbInv(db)
    ensures Solo(k, EditStart(o, target), db, oks).db.payments == db.payments
    ensures Dead(db, d) ==> Dead(Solo(k, EditStart(o, target), db, oks).db, d)
  {
    hide DbInv, NextRelease, NextRefund, NextSucceeded, NextFailed, NextReconcile, NextReap, NextIntent;
    if oks != [] {
      var m := Next(k, EditStart(o, target), db, oks[0]);
      ReleaseKeepsRows(k, m.op, db, oks[1..]);
      if Dead(db, d) { DeadStays(k, m.op, db, oks[1..], d); }
    }
  }

  /**
   An admin edit reopens a payment exactly when it moves its dead order forward and the
   row does not say succeeded.
   */
  lemma EditReopensIff(k: nat, db: Db, o: nat, target: OrderStatus, oks: seq<bool>, p: nat)
    requires DbInv(db) && p < |db.payments|
    ensures Reopens(k, db, Ask(EditStart(o, target), oks), p)
       <==> db.payments[p].order == o && db.payments[p].status != Succeeded && Dead(db, o)
            && AdminSettable(target) && target != Cancelled && Lead(oks) >= 2
  {
    hide DbInv, Solo, Lead;
    RowIsUnique(db, p);
    if o < |db.orders| && AdminSettable(target) && target != Cancelled {
      EditExact(k, db, o, target, oks);
    } else {
      CancelEdit(k, db, o, target, oks, db.payments[p].order);
    }
  }

  // ---------- all of them ----------

  /** What it takes for this turn to reopen payment p. */
  predicate CanReopen(db: Db, t: Turn, p: nat)
    requires p < |db.payments|
  {
    t.Ask? && match t.request
    case FailedEvent(i) =>
      db.payments[p].intent == i && db.payments[p].status == Succeeded && LiveOrder(db, p) && Lead(t.oks) >= 2
    case CancelStart(o) => RefundReady(db, o, p) && db.orders[o].status == Paid && 4 <= Lead(t.oks) < 6
    case RefundStart(o) => RefundReady(db, o, p) && 4 <= Lead(t.oks) < 6
    case EditStart(o, target) =>
      && db.payments[p].order == o && db.payments[p].status != Succeeded && Dead(db, o)
      && AdminSettable(target) && target != Cancelled && Lead(t.oks) >= 2
    case _ => false
  }

  /** Exactly which turns reopen a payment; no other request and no move of Stripe's does. */
  lemma ReopensIff(k: nat, db: Db, t: Turn, p: nat)
    requires DbInv(db) && p < |db.payments|
    ensures Reopens(k, db, t, p) <==> CanReopen(db, t, p)
  {
    hide DbInv, Solo, Lead, Latest;
    if t.StripeMoves? || Calm(t.request) {
      ServeSpends(k, db, t, p);
    } else if t.request.FailedEvent? {
      FailureReopensIff(k, db, t.request.intent, t.oks, p);
    } else if t.request.CancelStart? || t.request.RefundStart? {
      RefundReopensIff(k, db, t.request, t.request.order, t.oks, p);
    } else if t.request.EditStart? {
      EditReopensIff(k, db, t.request.order, t.request.target, t.oks, p);
    } else {
      NotServed(k, db, t, p);
    }
  }

  lemma NotServed(k: nat, db: Db, t: Turn, p: nat)
    requires t.Ask? && !Calm(t.request)
    requires !t.request.FailedEvent? && !t.request.CancelStart? && !t.request.RefundStart? && !t.request.EditStart?
    ensures !Reopens(k, db, t, p)
  {
  }

  // ---------- and so the revenue is counted again ----------

  /** A recorded payment of a live order: a late failed event and one more delivery announce it again. */
  lemma LateFailure(k: nat, db: Db, p: nat, oks: seq<bool>)
    requires Paying(db, p) && LiveOrder(db, p) && db.payments[p].status == Succeeded && AllOk(oks) && |oks| >= 7
    ensures var i := db.payments[p].intent;
            Serve(k, Serve(k, db, Ask(FailedEvent(i), oks)), Ask(SucceededEvent(i), oks)).announced == db.announced + [p]
  {
    hide DbInv, Solo, Lead, Latest, RowOfIntent;
    var failure := Ask(FailedEvent(db.payments[p].intent), oks);
    RowIsUnique(db, p);
    FailureExact(k, db, db.payments[p].intent, oks);
    LeadOfAll(oks);
    ServeKeeps(k, db, failure);
    AnnouncesIff(k, Serve(k, db, failure), p, oks);
  }

  /**
   One delivery after the other, none disturbed: the succeeded event of a pending order,
   a failed event of its intent that arrives late, and the succeeded event again. The
   payment is announced twice.
   */
  lemma LateFailureAnnouncesAgain(k: nat, db: Db, p: nat, oks: seq<bool>)
    requires Paying(db, p) && PendingOrder(db, p) && AllOk(oks) && |oks| >= 7
    ensures var i := db.payments[p].intent;
            ServeAll(k, db, [Ask(SucceededEvent(i), oks), Ask(FailedEvent(i), oks), Ask(SucceededEvent(i), oks)]).announced
              == db.announced + [p, p]
  {
    hide DbInv, Solo, Latest;
    var i := db.payments[p].intent;
    var ts := [Ask(SucceededEvent(i), oks), Ask(FailedEvent(i), oks), Ask(SucceededEvent(i), oks)];
    DeliverySettles(k, db, p, oks);
    ServeKeeps(k, db, ts[0]);
    var settled := Serve(k, db, ts[0]);
    LateFailure(k, settled, p, oks);
    hide Serve;
    assert ts[..2][..1] == ts[..1] && ts[..1][..0] == [];
    assert ServeAll(k, db, ts[..1]) == settled;
    assert ServeAll(k, db, ts[..2]) == Serve(k, settled, ts[1]);
  }

  /** A recorded payment of a live order, refunded, moved forward and delivered again: announced again. */
  lemma RefundedAndRevived(k: nat, db: Db, p: nat, oks: seq<bool>)
    requires Paying(db, p) && LiveOrder(db, p) && db.payments[p].status == Succeeded && AllOk(oks) && |oks| >= 7
    requires Latest(db.payments, db.payments[p].order) == Some(p)
    ensures var o, i := db.payments[p].order, db.payments[p].intent;
            var refunded := Serve(k, db, Ask(RefundStart(o), oks));
            Serve(k, Serve(k, refunded, Ask(EditStart(o, Processing), oks)), Ask(SucceededEvent(i), oks)).announced
              == db.announced + [p]
  {
    hide DbInv, Solo, Lead, Latest, Attempts;
    var o, i := db.payments[p].order, db.payments[p].intent;
    var refund, edit := Ask(RefundStart(o), oks), Ask(EditStart(o, Processing), oks);
    NoAttempts(k, RefundStart(o), db);
    RefundConverges(k, RefundStart(o), db, o, p, [], oks);
    var refunded := Serve(k, db, refund);
    ServeKeeps(k, db, refund);
    LeadOfAll(oks);
    EditExact(k, refunded, o, Processing, oks);
    ServeKeeps(k, refunded, edit);
    AnnouncesIff(k, Serve(k, refunded, edit), p, oks);
  }

  lemma NoAttempts(k: nat, start: Op, db: Db)
    ensures Attempts(k, start, db, []) == db
  {
  }

  /**
   The succeeded event of a pending order, an admin's refund, an admin's forward edit and
   the event again, none disturbed: the payment is announced twice.
   */
  lemma EditAnnouncesAgain(k: nat, db: Db, p: nat, oks: seq<bool>)
    requires Paying(db, p) && PendingOrder(db, p) && AllOk(oks) && |oks| >= 7
    requires Latest(db.payments, db.payments[p].order) == Some(p)
    ensures var o, event := db.payments[p].order, Ask(SucceededEvent(db.payments[p].intent), oks);
            ServeAll(k, db, [event, Ask(RefundStart(o), oks), Ask(EditStart(o, Processing), oks), event]).announced
              == db.announced + [p, p]
  {
    hide DbInv, Solo, Latest;
    var o, event := db.payments[p].order, Ask(SucceededEvent(db.payments[p].intent), oks);
    var ts := [event, Ask(RefundStart(o), oks), Ask(EditStart(o, Processing), oks), event];
    DeliverySettles(k, db, p, oks);
    LatestIgnoresStatus(db.payments, p, Succeeded, o);
    ServeKeeps(k, db, event);
    var settled := Serve(k, db, event);
    RefundedAndRevived(k, settled, p, oks);
    hide Serve;
    assert ts[..3][..2] == ts[..2] && ts[..2][..1] == ts[..1] && ts[..1][..0] == [];
    assert ServeAll(k, db, ts[..1]) == settled;
    assert ServeAll(k, db, ts[..2]) == Serve(k, settled, ts[1]);
  }
}
