/**
 Charges that land on dead orders: what becomes of the automatic refund when its
 deliveries stop or fail on the way and come again.
 */
module ShopOrphans {
  import opened Wrappers
  import opened ShopState
  import opened Operations
  import opened ShopInvariant
  import opened ShopRecovery
  import opened ShopDelivery

  /** The newest row of a dead order, and its intent was charged. */
  predicate Orphan(db: Db, p: nat) {
    Paying(db, p) && Dead(db, db.payments[p].order) && Latest(db.payments, db.payments[p].order) == Some(p)
  }

  /** The row gets this status; `paidBack` says whether its refund stands in Stripe's ledger. */
  function OrphanDb(db: Db, p: nat, status: PaymentStatus, paidBack: bool): Db
    requires p < |db.payments|
  {
    db.(payments := db.payments[p := db.payments[p].(status := status)],
        refunds := if paidBack then db.refunds[p := db.payments[p].intent] else db.refunds)
  }

  // ---------- one delivery ----------

  /** What one delivery makes of an orphan, by how many of its steps succeed. */
  function Attempted(db: Db, p: nat, lead: nat): Db
    requires p < |db.payments|
  {
    if db.payments[p].status == Succeeded || lead < 4 then db
    else OrphanDb(db, p, if lead >= 7 then RefundedPayment else Succeeded, lead >= 6)
  }

  lemma OrphanFails(k: nat, op: Op, db: Db, oks: seq<bool>)
    requires oks != [] && !oks[0]
    requires op.SucceededEvent? || op.PayCas? || op.PayRead? || op.RecordSucceeded? || OnRefund(op)
    ensures Solo(k, op, db, oks) == Moved(Done, db)
  {
    assert Next(k, op, db, false) == Moved(Done, db);
    DoneStays(k, db, oks[1..]);
  }

  /** The three steps of the refund itself. */
  function Refunding(db: Db, p: nat, lead: nat): Db
    requires p < |db.payments|
  {
    if lead < 2 then db
    else if lead == 2 then RefundCharge(db, p)
    else SetPayment(RefundCharge(db, p), p, RefundedPayment)
  }

  lemma MarkStep(k: nat, db: Db, o: nat, p: nat, oks: seq<bool>)
    requires p < |db.payments|
    ensures var m := Solo(k, RefundMark(o, p, ThenNothing), RefundCharge(db, p), oks);
            m.db == Refunding(db, p, Lead(oks) + 2) && (oks != [] ==> m.op == Done)
  {
    hide NextOrder, NextRelease, NextSucceeded, NextFailed, NextReconcile, NextReap, NextIntent;
    if oks != [] && !oks[0] {
      OrphanFails(k, RefundMark(o, p, ThenNothing), RefundCharge(db, p), oks);
    } else if oks != [] {
      DoneStays(k, SetPayment(RefundCharge(db, p), p, RefundedPayment), oks[1..]);
    }
  }

  lemma CallStep(k: nat, db: Db, o: nat, p: nat, oks: seq<bool>)
    requires p < |db.payments| && db.payments[p].intent < |db.intents| && RefundAccepted(db, p)
    ensures var m := Solo(k, RefundCall(o, p, ThenNothing), db, oks);
            m.db == Refunding(db, p, Lead(oks) + 1) && (|oks| >= 2 ==> m.op == Done)
  {
    hide NextOrder, NextRelease, NextSucceeded, NextFailed, NextReconcile, NextReap, NextIntent;
    if oks != [] && !oks[0] {
      OrphanFails(k, RefundCall(o, p, ThenNothing), db, oks);
    } else if oks != [] {
      MarkStep(k, db, o, p, oks[1..]);
    }
  }

  lemma ReadStep(k: nat, db: Db, o: nat, p: nat, oks: seq<bool>)
    requires DbInv(db) && Latest(db.payments, o) == Some(p) && db.payments[p].status == Succeeded
    ensures var m := Solo(k, RefundRead(o, ThenNothing), db, oks);
            m.db == Refunding(db, p, Lead(oks)) && (|oks| >= 3 ==> m.op == Done)
  {
    hide DbInv, NextOrder, NextRelease, NextSucceeded, NextFailed, NextReconcile, NextReap, NextIntent;
    ChargeAccepted(db, p);
    if oks != [] && !oks[0] {
      OrphanFails(k, RefundRead(o, ThenNothing), db, oks);
    } else if oks != [] {
      CallStep(k, db, o, p, oks[1..]);
    }
  }

  lemma RecordedOrphan(k: nat, db: Db, p: nat)
    requires Orphan(db, p)
    ensures var recorded := SetPayment(db, p, Succeeded);
            DbInv(recorded) && Latest(recorded.payments, db.payments[p].order) == Some(p)
  {
    hide DbInv, Latest;
    RowIsUnique(db, p);
    PaymentKeeps(db, p, Succeeded, k);
    LatestIgnoresStatus(db.payments, p, Succeeded, db.payments[p].order);
  }

  lemma RecordStep(k: nat, db: Db, p: nat, oks: seq<bool>)
    requires Orphan(db, p)
    ensures var m := Solo(k, RecordSucceeded(p, false), db, oks);
            && m.db == (if Lead(oks) == 0 then db else Refunding(SetPayment(db, p, Succeeded), p, Lead(oks) - 1))
            && (|oks| >= 4 ==> m.op == Done)
  {
    hide Paying, Dead, Latest, Refunding, NextOrder, NextRelease, NextRefund, NextFailed, NextReconcile, NextReap, NextIntent;
    if oks != [] && !oks[0] {
      OrphanFails(k, RecordSucceeded(p, false), db, oks);
    } else if oks != [] {
      RecordedOrphan(k, db, p);
      ReadStep(k, SetPayment(db, p, Succeeded), db.payments[p].order, p, oks[1..]);
    }
  }

  /** The order stays as it is: the compare-and-set misses, and the read finds the order dead. */
  lemma MissStep(k: nat, db: Db, p: nat, oks: seq<bool>)
    requires Orphan(db, p)
    ensures var m := Solo(k, PayCas(p), db, oks);
            && m.db == (if Lead(oks) < 3 then db else Refunding(SetPayment(db, p, Succeeded), p, Lead(oks) - 3))
            && (|oks| >= 6 ==> m.op == Done)
  {
    hide DbInv, Latest, Refunding, NextOrder, NextRelease, NextRefund, NextFailed, NextReconcile, NextReap, NextIntent;
    if oks != [] && !oks[0] {
      OrphanFails(k, PayCas(p), db, oks);
    } else if oks != [] {
      assert Solo(k, PayCas(p), db, oks) == Solo(k, PayRead(p), db, oks[1..]);
      if oks[1..] != [] && !oks[1..][0] {
        OrphanFails(k, PayRead(p), db, oks[1..]);
      } else if oks[1..] != [] {
        assert Solo(k, PayRead(p), db, oks[1..]) == Solo(k, RecordSucceeded(p, false), db, oks[1..][1..]);
        RecordStep(k, db, p, oks[1..][1..]);
      }
    }
  }

  /** One delivery to an orphan, with failures and stops anywhere. */
  lemma AttemptedExact(k: nat, db: Db, p: nat, oks: seq<bool>)
    requires Orphan(db, p)
    ensures var m := Solo(k, SucceededEvent(db.payments[p].intent), db, oks);
            m.db == Attempted(db, p, Lead(oks)) && (|oks| >= 7 ==> m.op == Done)
  {
    hide DbInv, Latest, RowOfIntent, NextOrder, NextRelease, NextRefund, NextFailed, NextReconcile, NextReap, NextIntent;
    RowIsUnique(db, p);
    LedgerKnown(db, p);
    var event := SucceededEvent(db.payments[p].intent);
    if oks != [] && !oks[0] {
      OrphanFails(k, event, db, oks);
    } else if oks != [] && db.payments[p].status == Succeeded {
      DoneStays(k, db, oks[1..]);
    } else if oks != [] {
      assert Solo(k, event, db, oks) == Solo(k, PayCas(p), db, oks[1..]);
      MissStep(k, db, p, oks[1..]);
    }
  }

  // ---------- deliveries that stop and are repeated ----------

  /** This delivery stopped after the row was recorded and before it was marked refunded. */
  predicate Strands(oks: seq<bool>) {
    4 <= Lead(oks) < 7
  }

  predicate Stranded(attempts: seq<seq<bool>>) {
    exists n :: 0 <= n < |attempts| && Strands(attempts[n])
  }

  /** Some delivery got as far as Stripe's refund, and none before it was stranded. */
  predicate PaidBack(attempts: seq<seq<bool>>) {
    exists n :: 0 <= n < |attempts| && Lead(attempts[n]) >= 6 && !Stranded(attempts[..n])
  }

  lemma StrandedLast(attempts: seq<seq<bool>>)
    requires attempts != []
    ensures var front, last := attempts[..|attempts| - 1], attempts[|attempts| - 1];
            && (Stranded(attempts) <==> Stranded(front) || Strands(last))
            && (PaidBack(attempts) <==> PaidBack(front) || (Lead(last) >= 6 && !Stranded(front)))
  {
    hide Lead;
    var front, last := attempts[..|attempts| - 1], attempts[|attempts| - 1];
    if n :| 0 <= n < |front| && Strands(front[n]) { assert Strands(attempts[n]); }
    if Strands(last) { assert Strands(attempts[|attempts| - 1]); }
    if n :| 0 <= n < |front| && Lead(front[n]) >= 6 && !Stranded(front[..n]) {
      assert attempts[..n] == front[..n] && Lead(attempts[n]) >= 6;
    }
    if n :| 0 <= n < |attempts| && Lead(attempts[n]) >= 6 && !Stranded(attempts[..n]) && n < |front| {
      assert attempts[..n] == front[..n] && Lead(front[n]) >= 6;
    }
  }

  /** Where the deliveries have left the charge. */
  function Left(db: Db, p: nat, attempts: seq<seq<bool>>): Db
    requires p < |db.payments|
  {
    if db.payments[p].status == Succeeded then db
    else OrphanDb(db, p,
                  if Stranded(attempts) then Succeeded
                  else if PaidBack(attempts) then RefundedPayment else db.payments[p].status,
                  PaidBack(attempts))
  }

  lemma {:induction false} RedeliverLeft(k: nat, db: Db, p: nat, attempts: seq<seq<bool>>)
    requires Orphan(db, p)
    ensures Redeliver(k, db.payments[p].intent, db, attempts) == Left(db, p, attempts)
    ensures Orphan(Left(db, p, attempts), p)
  {
    hide DbInv, Latest, Solo, Lead, Stranded, PaidBack;
    var i := db.payments[p].intent;
    if attempts == [] {
      NothingLeft(db, p);
    } else {
      var front, last := attempts[..|attempts| - 1], attempts[|attempts| - 1];
      RedeliverLeft(k, db, p, front);
      AttemptedExact(k, Left(db, p, front), p, last);
      StrandedLast(attempts);
      LeftStays(k, Left(db, p, front), p, last);
    }
  }

  lemma NothingLeft(db: Db, p: nat)
    requires p < |db.payments|
    ensures !Stranded([]) && !PaidBack([]) && Left(db, p, []) == db
  {
  }

  lemma LeftStays(k: nat, db: Db, p: nat, oks: seq<bool>)
    requires Orphan(db, p)
    ensures Orphan(Attempted(db, p, Lead(oks)), p)
  {
    hide DbInv, Latest, Lead, Solo;
    AttemptedExact(k, db, p, oks);
    SoloKeeps(k, SucceededEvent(db.payments[p].intent), db, oks);
    LatestIgnoresStatus(db.payments, p, Succeeded, db.payments[p].order);
    LatestIgnoresStatus(db.payments, p, RefundedPayment, db.payments[p].order);
  }

  /**
   However often the event of an orphan was delivered and stopped before, one undisturbed
   delivery ends with the row refunded exactly when it did not say succeeded at the start
   and no earlier delivery stopped between recording it and marking it refunded. After
   such a stop the row says succeeded for good and no delivery gets past its check; its
   refund then stands at Stripe only if one had got that far, or it stood there before.
   */
  lemma OrphanConverges(k: nat, db: Db, p: nat, attempts: seq<seq<bool>>, oks: seq<bool>)
    requires Orphan(db, p) && AllOk(oks) && |oks| >= 7
    ensures var m := Solo(k, SucceededEvent(db.payments[p].intent), Redeliver(k, db.payments[p].intent, db, attempts), oks);
            && m.op == Done && p < |m.db.payments|
            && (m.db.payments[p].status == RefundedPayment <==> db.payments[p].status != Succeeded && !Stranded(attempts))
            && m.db == if db.payments[p].status == Succeeded then db
                       else if Stranded(attempts) then OrphanDb(db, p, Succeeded, PaidBack(attempts))
                       else OrphanDb(db, p, RefundedPayment, true)
  {
    hide DbInv, Latest, Solo, Lead, Stranded, PaidBack;
    RedeliverLeft(k, db, p, attempts);
    AttemptedExact(k, Left(db, p, attempts), p, oks);
    LeadOfAll(oks);
  }
}
